// The setup wizard page: its state (current step, setup mode, form data,
// error details, loading flag), the handlers that change it, and the
// step/mode controller. Network calls are split at their `await`: a Begin
// method runs a handler up to the request it sends, and the matching End
// method runs the rest once the collaborator's outcome is known.

module SetupWizard {
  import opened Js
  import opened SetupConfig
  import opened SetupValidation

  /** "step1" … "step5" */
  datatype Step = Step1 | Step2 | Step3 | Step4 | Step5

  datatype Mode = FirstTime | AcademicOnly

  const Steps: seq<Step> := [Step1, Step2, Step3, Step4, Step5]

  /** Whether the sidebar entry and the tab of step `s` are shown. */
  predicate StepVisible(mode: Mode, s: Step)
  {
    mode == FirstTime || s == Step4 || s == Step5
  }

  /** The entries of `steps` that are shown, in order. */
  function ShownSteps(mode: Mode, steps: seq<Step>): seq<Step>
  {
    if steps == [] then []
    else (if StepVisible(mode, steps[0]) then [steps[0]] else []) + ShownSteps(mode, steps[1..])
  }

  /** Only Academic and Review are offered in academic-only mode; all five otherwise. */
  lemma VisibleStepsByMode()
    ensures ShownSteps(AcademicOnly, Steps) == [Step4, Step5]
    ensures ShownSteps(FirstTime, Steps) == Steps
  {
    var tail1, tail2, tail3, tail4 := Steps[1..], Steps[2..], Steps[3..], Steps[4..];
    assert tail4 == [Step5] && tail4[1..] == [];
    assert tail3 == [Step4, Step5] && tail3[1..] == tail4;
    assert tail2 == [Step3, Step4, Step5] && tail2[1..] == tail3;
    assert tail1 == [Step2, Step3, Step4, Step5] && tail1[1..] == tail2;
    assert ShownSteps(AcademicOnly, []) == [] && ShownSteps(FirstTime, []) == [];
    assert ShownSteps(AcademicOnly, tail4) == [Step5] + [];
    assert ShownSteps(FirstTime, tail4) == [Step5] + [];
    assert ShownSteps(AcademicOnly, tail3) == [Step4] + [Step5];
    assert ShownSteps(AcademicOnly, tail2) == [] + [Step4, Step5];
    assert ShownSteps(AcademicOnly, tail1) == [] + [Step4, Step5];
    assert ShownSteps(FirstTime, tail3) == tail3;
    assert ShownSteps(FirstTime, tail2) == tail2;
    assert ShownSteps(FirstTime, tail1) == tail1;
  }

  /** Where a panel's "Next" button leads; the Review panel has none. */
  function NextStep(s: Step): Option<Step>
  {
    match s
    case Step1 => Some(Step2)
    case Step2 => Some(Step3)
    case Step3 => Some(Step4)
    case Step4 => Some(Step5)
    case Step5 => None
  }

  /** Where a panel's "Back" button leads; the Institute panel has none.
      The Academic panel goes back to Faculty whatever the mode. */
  function BackStep(s: Step): Option<Step>
  {
    match s
    case Step1 => None
    case Step2 => Some(Step1)
    case Step3 => Some(Step2)
    case Step4 => Some(Step3)
    case Step5 => Some(Step4)
  }

  /** "Back" undoes "Next" and "Next" undoes "Back". */
  lemma BackNextInverse(s: Step, t: Step)
    ensures NextStep(s) == Some(t) <==> BackStep(t) == Some(s)
  {
  }

  /** In academic-only mode the Academic panel's "Back" leads to a step with
      no tab, and a second "Back" goes further into the hidden steps. */
  lemma AcademicBackLeavesShownSteps()
    ensures BackStep(Step4) == Some(Step3) && !StepVisible(AcademicOnly, Step3)
    ensures BackStep(Step3) == Some(Step2) && !StepVisible(AcademicOnly, Step2)
  {
  }

  /** The setup-status reply: absent fields are None. */
  datatype StatusReply = StatusReply(
    setupComplete: bool,
    institute: Option<Institute>,
    rooms: Option<seq<Room>>,
    faculties: Option<seq<Faculty>>)

  datatype StatusFetch = StatusFailed | StatusFetched(reply: StatusReply)

  /** `fromServer || current` for an object or array field: any present value
      is truthy, an empty array included. */
  function Adopt<T>(fromServer: Option<T>, current: T): (r: T)
    ensures fromServer.Some? ==> r == fromServer.value
    ensures fromServer.None? ==> r == current
  {
    if fromServer.Some? then fromServer.value else current
  }

  datatype Payload =
    | NoBody
    | BaseSetup(institute: Institute, rooms: seq<Room>, faculties: seq<Faculty>)
    | AcademicsOnly(academics: seq<Semester>)
    | WholeForm(form: FormData)

  datatype Request = Request(url: string, payload: Payload, authorization: string)

  const StatusUrl: string := "http://127.0.0.1:8000/timetable/setup/status/"
  const InstituteUrl: string := "http://127.0.0.1:8000/timetable/setup/institute/"
  const AcademicUrl: string := "http://127.0.0.1:8000/timetable/setup/academic/"
  const GenerateUrl: string := "http://127.0.0.1:8000/timetable/generate/"

  /** The Authorization header built from the stored token, empty without one. */
  function Authorization(storage: map<string, string>): (h: string)
    ensures h == "" <==> "token" !in storage || storage["token"] == ""
  {
    if "token" in storage && storage["token"] != "" then "Token " + storage["token"] else ""
  }

  /** The GET the status check sends when the page opens: no body, and the
      same token header as the other requests. */
  function StatusRequest(storage: map<string, string>): (r: Request)
    ensures r.url == StatusUrl && r.payload == NoBody
    ensures r.authorization == "" <==> "token" !in storage || storage["token"] == ""
    ensures r.authorization == Authorization(storage)
  {
    Request(StatusUrl, NoBody, Authorization(storage))
  }

  /** The request "Generate" sends in each mode. */
  function GenerateRequest(mode: Mode, form: FormData, storage: map<string, string>): (r: Request)
    ensures mode == AcademicOnly ==> r.url == AcademicUrl && r.payload == AcademicsOnly(form.academics)
    ensures mode == FirstTime ==> r.url == GenerateUrl && r.payload == WholeForm(form)
    ensures r.authorization == Authorization(storage)
  {
    match mode
    case AcademicOnly => Request(AcademicUrl, AcademicsOnly(form.academics), Authorization(storage))
    case FirstTime => Request(GenerateUrl, WholeForm(form), Authorization(storage))
  }

  /** How the institute save ended. */
  datatype SaveOutcome = Saved | SaveFailed(serverError: Option<string>, message: string)

  function SaveAlert(outcome: SaveOutcome): string
  {
    match outcome
    case Saved =>
      "Institute setup saved successfully! You can now generate timetables with just academic setup."
    case SaveFailed(serverError, message) =>
      "Failed to save institute setup: " + OrElse(serverError, message)
  }

  /** A failed save shows the server's non-empty `error` whatever the
      exception's message; without one it shows that message. */
  lemma SaveAlertPrefersServerError(e: string, m1: string, m2: string)
    ensures e != "" ==> SaveAlert(SaveFailed(Some(e), m1)) == SaveAlert(SaveFailed(Some(e), m2))
    ensures SaveAlert(SaveFailed(Some(""), m1)) == SaveAlert(SaveFailed(None, m1))
  {
  }

  /** The body of an error response: a string, or an object with optional
      `error` and `detail` fields and the text `JSON.stringify` makes of it. */
  datatype ErrorBody =
    | TextBody(text: string)
    | ObjectBody(error: Option<string>, detail: Option<string>, json: string)

  /** How the generate request ended. */
  datatype GenerateOutcome =
    | Generated(sectionId: Option<int>)
    | HttpError(status: int, body: ErrorBody)
    | NoResponse(message: Option<string>)

  /** What the page does besides changing its own state. */
  datatype Action = Alert(text: string) | Navigate(path: string)

  const GeneratedAlert: string := "Timetable generated successfully! \U{1F389}"

  /** The page shown after generation: the returned section, or section 1
      when the id is absent or 0. */
  function TimetablePath(sectionId: Option<int>): string
  {
    "/timetable/" + IntToString(if sectionId.Some? && sectionId.value != 0 then sectionId.value else 1)
  }

  /** A missing or zero section id leads to section 1's page; distinct
      non-zero ids lead to distinct pages. */
  lemma TimetablePathFallback(a: int, b: int)
    ensures TimetablePath(None) == TimetablePath(Some(0)) == TimetablePath(Some(1))
    ensures a != 0 && b != 0 ==> (TimetablePath(Some(a)) == TimetablePath(Some(b)) <==> a == b)
  {
    var prefix := "/timetable/";
    IntToStringInjective(a, b);
    assert (prefix + IntToString(a))[|prefix|..] == IntToString(a);
    assert (prefix + IntToString(b))[|prefix|..] == IntToString(b);
  }

  /** The line the error body adds to the error details: `error`, else
      `detail`, else a string body, else the JSON text. */
  function BodyLine(body: ErrorBody): string
  {
    match body
    case TextBody(text) => "\nMessage: " + text
    case ObjectBody(error, detail, json) =>
      if error.Some? && error.value != "" then "\nMessage: " + error.value
      else if detail.Some? && detail.value != "" then "\nDetail: " + detail.value
      else "\nData: " + json
  }

  const DetailsHeading: string := "Error generating timetable"

  /** The error details of a failed generate request other than a 401. */
  function ErrorDetails(outcome: GenerateOutcome): (d: string)
    requires !outcome.Generated?
  {
    match outcome
    case HttpError(status, body) => DetailsHeading + "\nStatus: " + IntToString(status) + BodyLine(body)
    case NoResponse(message) =>
      if message.Some? && message.value != "" then DetailsHeading + "\n" + message.value else DetailsHeading
  }

  /** A non-empty `error` field decides the message, whatever `detail` and the JSON text are. */
  lemma ErrorFieldTakesPrecedence(status: int, e: string, d1: Option<string>, d2: Option<string>, j1: string, j2: string)
    requires e != ""
    ensures ErrorDetails(HttpError(status, ObjectBody(Some(e), d1, j1)))
         == ErrorDetails(HttpError(status, ObjectBody(Some(e), d2, j2)))
    ensures ErrorDetails(HttpError(status, ObjectBody(Some(e), d1, j1)))
         == ErrorDetails(HttpError(status, TextBody(e)))
  {
  }

  /** Without an `error`, a non-empty `detail` decides the message, whatever the JSON text is. */
  lemma DetailFieldBeforeJson(status: int, e: Option<string>, d: string, j1: string, j2: string)
    requires e.None? || e.value == ""
    requires d != ""
    ensures ErrorDetails(HttpError(status, ObjectBody(e, Some(d), j1)))
         == ErrorDetails(HttpError(status, ObjectBody(e, Some(d), j2)))
  {
  }

  /** Every HTTP error's details begin with the heading and the status line. */
  lemma DetailsStartWithStatus(status: int, body: ErrorBody)
    ensures var prefix := DetailsHeading + "\nStatus: " + IntToString(status);
            var d := ErrorDetails(HttpError(status, body));
            |prefix| <= |d| && d[..|prefix|] == prefix
  {
    var prefix := DetailsHeading + "\nStatus: " + IntToString(status);
    assert ErrorDetails(HttpError(status, body)) == prefix + BodyLine(body);
  }

  /** A request the page is waiting on, if any. */
  datatype Awaiting = Idle | AwaitingSave | AwaitingGenerate

  class Wizard {
    var step: Step
    var setupMode: Mode
    var existingSetup: Option<StatusReply>
    var formData: FormData
    var errorDetails: Option<string>
    var loading: bool
    /** Where a handler is suspended at its `await`. */
    var awaiting: Awaiting
    /** The browser's local storage, of which the handlers read and clear entries. */
    var storage: map<string, string>

    /** The loading flag is up exactly while a request is outstanding;
        semester numbers stay strictly ascending; every semester keeps a
        section entry and a subject entry. */
    predicate Valid()
      reads this
    {
      (loading <==> awaiting != Idle)
      && StrictlyAscending(formData.academics)
      && EntriesPresent(formData.academics)
    }

    constructor (storage: map<string, string>)
      ensures Valid()
      ensures step == Step1 && setupMode == FirstTime && existingSetup == None
      ensures formData == InitialForm && errorDetails == None
      ensures !loading && awaiting == Idle && this.storage == storage
    {
      step := Step1;
      setupMode := FirstTime;
      existingSetup := None;
      formData := InitialForm;
      errorDetails := None;
      loading := false;
      awaiting := Idle;
      this.storage := storage;
    }

    /** A click on a shown sidebar entry or tab. */
    method SelectStep(s: Step)
      requires Valid() && StepVisible(setupMode, s)
      modifies this`step
      ensures Valid() && step == s
    {
      step := s;
    }

    /** The "Next" button of the current panel. */
    method GoNext()
      requires Valid() && NextStep(step).Some?
      modifies this`step
      ensures Valid() && step == NextStep(old(step)).value
    {
      step := NextStep(step).value;
    }

    /** The "Back" button of the current panel; the Review panel's is disabled while loading. */
    method GoBack()
      requires Valid() && BackStep(step).Some? && (step == Step5 ==> !loading)
      modifies this`step
      ensures Valid() && step == BackStep(old(step)).value
    {
      step := BackStep(step).value;
    }

    method AddSemester()
      requires Valid()
      modifies this`formData
      ensures Valid()
      ensures formData.academics ==
                old(formData.academics) + [SeededSemester(NextSemesterNumber(old(formData.academics)))]
      ensures formData == old(formData).(academics := formData.academics)
    {
      AddSemesterKeepsAscending(formData.academics);
      var n := NextSemesterNumber(formData.academics);
      formData := formData.(academics := formData.academics + [SeededSemester(n)]);
    }

    /** No guard: the last semester can be removed here; only the page hides the button. */
    method RemoveSemester(idx: int)
      requires Valid()
      modifies this`formData
      ensures Valid()
      ensures formData.academics == Splice(old(formData.academics), idx)
      ensures formData == old(formData).(academics := formData.academics)
    {
      SpliceKeepsAscending(formData.academics, idx);
      formData := formData.(academics := Splice(formData.academics, idx));
    }

    method AddRoom()
      requires Valid()
      modifies this`formData
      ensures Valid()
      ensures formData == old(formData).(rooms := old(formData.rooms) + [BlankRoom])
    {
      formData := formData.(rooms := formData.rooms + [BlankRoom]);
    }

    method RemoveRoom(idx: int)
      requires Valid()
      modifies this`formData
      ensures Valid()
      ensures formData == old(formData).(rooms := RemoveUnlessLast(old(formData.rooms), idx))
    {
      if |formData.rooms| > 1 {
        formData := formData.(rooms := Splice(formData.rooms, idx));
      }
    }

    method AddFaculty()
      requires Valid()
      modifies this`formData
      ensures Valid()
      ensures formData == old(formData).(faculties := old(formData.faculties) + [BlankFaculty])
    {
      formData := formData.(faculties := formData.faculties + [BlankFaculty]);
    }

    method RemoveFaculty(idx: int)
      requires Valid()
      modifies this`formData
      ensures Valid()
      ensures formData == old(formData).(faculties := RemoveUnlessLast(old(formData.faculties), idx))
    {
      if |formData.faculties| > 1 {
        formData := formData.(faculties := Splice(formData.faculties, idx));
      }
    }

    /** "+ Add Section" of semester `semIdx`. */
    method AddSection(semIdx: nat)
      requires Valid() && semIdx < |formData.academics|
      modifies this`formData
      ensures Valid()
      ensures var sem := old(formData.academics[semIdx]);
              formData == old(formData).(academics :=
                old(formData.academics)[semIdx := sem.(sections := sem.sections + [""])])
    {
      var sem := formData.academics[semIdx];
      var sem' := sem.(sections := sem.sections + [""]);
      UpdateKeepsEntries(formData.academics, semIdx, sem');
      formData := formData.(academics := formData.academics[semIdx := sem']);
    }

    /** "+ Add Subject" of semester `semIdx`: a subject with a name and a faculty only. */
    method AddSubject(semIdx: nat)
      requires Valid() && semIdx < |formData.academics|
      modifies this`formData
      ensures Valid()
      ensures var sem := old(formData.academics[semIdx]);
              formData == old(formData).(academics :=
                old(formData.academics)[semIdx := sem.(subjects := sem.subjects + [PartialSubject])])
    {
      var sem := formData.academics[semIdx];
      var sem' := sem.(subjects := sem.subjects + [PartialSubject]);
      UpdateKeepsEntries(formData.academics, semIdx, sem');
      formData := formData.(academics := formData.academics[semIdx := sem']);
    }

    method SetSection(semIdx: nat, secIdx: nat, text: string)
      requires Valid() && semIdx < |formData.academics| && secIdx < |formData.academics[semIdx].sections|
      modifies this`formData
      ensures Valid()
      ensures var sem := old(formData.academics[semIdx]);
              formData == old(formData).(academics :=
                old(formData.academics)[semIdx := sem.(sections := sem.sections[secIdx := text])])
    {
      var sem := formData.academics[semIdx];
      var sem' := sem.(sections := sem.sections[secIdx := text]);
      UpdateKeepsEntries(formData.academics, semIdx, sem');
      formData := formData.(academics := formData.academics[semIdx := sem']);
    }

    method SetSubjectName(semIdx: nat, subjIdx: nat, text: string)
      requires Valid() && semIdx < |formData.academics| && subjIdx < |formData.academics[semIdx].subjects|
      modifies this`formData
      ensures Valid()
      ensures var sem := old(formData.academics[semIdx]);
              formData == old(formData).(academics := old(formData.academics)[semIdx :=
                sem.(subjects := sem.subjects[subjIdx := sem.subjects[subjIdx].(name := text)])])
    {
      var sem := formData.academics[semIdx];
      var sem' := sem.(subjects := sem.subjects[subjIdx := sem.subjects[subjIdx].(name := text)]);
      UpdateKeepsEntries(formData.academics, semIdx, sem');
      formData := formData.(academics := formData.academics[semIdx := sem']);
    }

    method SetSubjectFaculty(semIdx: nat, subjIdx: nat, facultyName: string)
      requires Valid() && semIdx < |formData.academics| && subjIdx < |formData.academics[semIdx].subjects|
      modifies this`formData
      ensures Valid()
      ensures var sem := old(formData.academics[semIdx]);
              formData == old(formData).(academics := old(formData.academics)[semIdx :=
                sem.(subjects := sem.subjects[subjIdx := sem.subjects[subjIdx].(faculty := facultyName)])])
    {
      var sem := formData.academics[semIdx];
      var sem' := sem.(subjects := sem.subjects[subjIdx := sem.subjects[subjIdx].(faculty := facultyName)]);
      UpdateKeepsEntries(formData.academics, semIdx, sem');
      formData := formData.(academics := formData.academics[semIdx := sem']);
    }

    method SetRoomName(idx: nat, text: string)
      requires Valid() && idx < |formData.rooms|
      modifies this`formData
      ensures Valid()
      ensures formData == old(formData).(rooms := old(formData.rooms)[idx := old(formData.rooms[idx]).(name := text)])
    {
      formData := formData.(rooms := formData.rooms[idx := formData.rooms[idx].(name := text)]);
    }

    method SetRoomIsLab(idx: nat, checked: bool)
      requires Valid() && idx < |formData.rooms|
      modifies this`formData
      ensures Valid()
      ensures formData == old(formData).(rooms := old(formData.rooms)[idx := old(formData.rooms[idx]).(isLab := checked)])
    {
      formData := formData.(rooms := formData.rooms[idx := formData.rooms[idx].(isLab := checked)]);
    }

    method SetFacultyName(idx: nat, text: string)
      requires Valid() && idx < |formData.faculties|
      modifies this`formData
      ensures Valid()
      ensures formData == old(formData).(faculties :=
                old(formData.faculties)[idx := old(formData.faculties[idx]).(name := text)])
    {
      formData := formData.(faculties := formData.faculties[idx := formData.faculties[idx].(name := text)]);
    }

    method SetFacultyEmpId(idx: nat, text: string)
      requires Valid() && idx < |formData.faculties|
      modifies this`formData
      ensures Valid()
      ensures formData == old(formData).(faculties :=
                old(formData.faculties)[idx := old(formData.faculties[idx]).(empId := text)])
    {
      formData := formData.(faculties := formData.faculties[idx := formData.faculties[idx].(empId := text)]);
    }

    method SetFacultyMaxHours(idx: nat, hours: int)
      requires Valid() && idx < |formData.faculties|
      modifies this`formData
      ensures Valid()
      ensures formData == old(formData).(faculties :=
                old(formData.faculties)[idx := old(formData.faculties[idx]).(maxHours := hours)])
    {
      formData := formData.(faculties := formData.faculties[idx := formData.faculties[idx].(maxHours := hours)]);
    }

    method SetInstitute(field: InstituteField)
      requires Valid()
      modifies this`formData
      ensures Valid()
      ensures formData == old(formData).(institute := SetInstituteField(old(formData.institute), field))
    {
      formData := formData.(institute := SetInstituteField(formData.institute, field));
    }

    /** `checkSetupStatus`, run when the page opens. A completed setup
        switches to academic-only mode at the Academic step and adopts the
        institute, rooms and faculties the reply carries; a failed fetch
        changes nothing. */
    method CheckSetupStatus(fetch: StatusFetch)
      requires Valid()
      modifies this`setupMode, this`existingSetup, this`formData, this`step
      ensures Valid()
      ensures fetch.StatusFailed? ==>
                setupMode == old(setupMode) && existingSetup == old(existingSetup)
                && formData == old(formData) && step == old(step)
      ensures fetch.StatusFetched? && !fetch.reply.setupComplete ==>
                setupMode == FirstTime && existingSetup == old(existingSetup)
                && formData == old(formData) && step == old(step)
      ensures fetch.StatusFetched? && fetch.reply.setupComplete ==>
                var reply := fetch.reply;
                setupMode == AcademicOnly && step == Step4 && existingSetup == Some(reply)
                && formData == FormData(
                     Adopt(reply.institute, old(formData.institute)),
                     Adopt(reply.rooms, old(formData.rooms)),
                     Adopt(reply.faculties, old(formData.faculties)),
                     old(formData.academics))
    {
      match fetch
      case StatusFailed =>
      case StatusFetched(reply) =>
        if reply.setupComplete {
          setupMode := AcademicOnly;
          existingSetup := Some(reply);
          formData := FormData(
            Adopt(reply.institute, formData.institute),
            Adopt(reply.rooms, formData.rooms),
            Adopt(reply.faculties, formData.faculties),
            formData.academics);
          step := Step4;
        } else {
          setupMode := FirstTime;
        }
    }

    /** "Save Institute Setup" (Faculty panel, first-time mode only, disabled
        while loading) up to its request. */
    method BeginSaveInstituteSetup() returns (request: Request)
      requires Valid() && awaiting == Idle && setupMode == FirstTime && step == Step3
      modifies this`loading, this`awaiting
      ensures Valid() && loading && awaiting == AwaitingSave
      ensures request == Request(InstituteUrl,
                BaseSetup(formData.institute, formData.rooms, formData.faculties), Authorization(storage))
    {
      loading := true;
      awaiting := AwaitingSave;
      request := Request(InstituteUrl,
        BaseSetup(formData.institute, formData.rooms, formData.faculties), Authorization(storage));
    }

    /** The rest of `handleSaveInstituteSetup`: success moves to academic-only
        mode at the Academic step; failure leaves mode and step as they are. */
    method EndSaveInstituteSetup(outcome: SaveOutcome) returns (alert: Action)
      requires Valid() && awaiting == AwaitingSave
      modifies this`loading, this`awaiting, this`setupMode, this`step
      ensures Valid() && !loading && awaiting == Idle
      ensures alert == Alert(SaveAlert(outcome))
      ensures outcome.Saved? ==> setupMode == AcademicOnly && step == Step4
      ensures outcome.SaveFailed? ==> setupMode == old(setupMode) && step == old(step)
    {
      alert := Alert(SaveAlert(outcome));
      if outcome.Saved? {
        setupMode := AcademicOnly;
        step := Step4;
      }
      loading := false;
      awaiting := Idle;
    }

    /** "Generate Timetable" (Review panel, disabled while loading) up to its
        request. Only academic-only mode validates, and a failed validation
        stores its message and sends nothing. */
    method BeginGenerate() returns (request: Option<Request>, alerts: seq<Action>)
      requires Valid() && awaiting == Idle && step == Step5
      modifies this`errorDetails, this`loading, this`awaiting
      ensures Valid()
      ensures setupMode == AcademicOnly && ValidationMessage(formData.academics).Some? ==>
                var message := ValidationMessage(formData.academics).value;
                request == None && alerts == [Alert(message)] && errorDetails == Some(message)
                && !loading && awaiting == Idle
      ensures setupMode == FirstTime || ValidationMessage(formData.academics).None? ==>
                request == Some(GenerateRequest(setupMode, formData, storage)) && alerts == []
                && errorDetails == None && loading && awaiting == AwaitingGenerate
    {
      errorDetails := None;
      loading := true;
      if setupMode == AcademicOnly {
        var validationError := ValidateAcademicData(formData.academics);
        if validationError.Some? {
          errorDetails := validationError;
          loading := false;
          return None, [Alert(validationError.value)];
        }
      }
      awaiting := AwaitingGenerate;
      request := Some(GenerateRequest(setupMode, formData, storage));
      alerts := [];
    }

    /** The rest of `handleGenerate`. Success shows the new timetable; a 401
        clears the stored user and token and goes to the login page without
        recording details; any other failure records and shows the details. */
    method EndGenerate(outcome: GenerateOutcome) returns (actions: seq<Action>)
      requires Valid() && awaiting == AwaitingGenerate
      modifies this`errorDetails, this`loading, this`awaiting, this`storage
      ensures Valid() && !loading && awaiting == Idle
      ensures outcome.Generated? ==>
                actions == [Alert(GeneratedAlert), Navigate(TimetablePath(outcome.sectionId))]
                && errorDetails == old(errorDetails) && storage == old(storage)
      ensures outcome.HttpError? && outcome.status == 401 ==>
                actions == [Navigate("/login")] && errorDetails == old(errorDetails)
                && storage == old(storage) - {"user", "token"}
      ensures !outcome.Generated? && !(outcome.HttpError? && outcome.status == 401) ==>
                actions == [Alert(ErrorDetails(outcome))] && errorDetails == Some(ErrorDetails(outcome))
                && storage == old(storage)
    {
      match outcome {
        case Generated(sectionId) =>
          actions := [Alert(GeneratedAlert), Navigate(TimetablePath(sectionId))];
        case HttpError(status, body) =>
          if status == 401 {
            storage := storage - {"user", "token"};
            actions := [Navigate("/login")];
          } else {
            var details := ErrorDetails(outcome);
            errorDetails := Some(details);
            actions := [Alert(details)];
          }
        case NoResponse(message) =>
          var details := ErrorDetails(outcome);
          errorDetails := Some(details);
          actions := [Alert(details)];
      }
      loading := false;
      awaiting := Idle;
    }
  }

  /** A fresh wizard whose status check finds no completed setup stays in
      first-time mode at the Institute step; one that finds a completed
      setup with three faculties moves to academic-only mode at the Academic
      step holding those three. */
  method StartupScenarios(faculties: seq<Faculty>) returns (newcomer: Wizard, returning: Wizard)
    requires |faculties| == 3
    ensures newcomer.setupMode == FirstTime && newcomer.step == Step1 && newcomer.formData == InitialForm
    ensures returning.setupMode == AcademicOnly && returning.step == Step4
    ensures returning.formData.faculties == faculties
  {
    newcomer := new Wizard(map[]);
    newcomer.CheckSetupStatus(StatusFetched(StatusReply(false, None, None, None)));
    returning := new Wizard(map[]);
    returning.CheckSetupStatus(StatusFetched(StatusReply(true, None, None, Some(faculties))));
  }
}
