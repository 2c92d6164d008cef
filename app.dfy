/** The case-record controller of App.tsx: one object owning the whole
    working state of the application, whose event handlers update that state
    field by field and overwrite the persisted archive list.

    What the browser decides is passed in: the answer to a confirmation
    dialog is `confirmed`, a reading of the millisecond clock is `now`, a
    locale-formatted date is `stamp`, and the outcome of a call to the
    text-generation service is a `Reply`. An asynchronous handler is split
    into a `Start…` method, which runs up to the `await`, and a
    `Complete…` method, which applies the settled result. */
module AppState {
  import opened Types
  import opened JsStrings
  import opened Gemini
  import opened CaseRecords

  /** What the persisted-storage key holds at start-up: nothing (or the
      empty string), text that is not JSON, or a parsed archive list. */
  datatype StoredBlob = Missing | Malformed | Stored(archives: seq<Archive>)

  /** The value the report-section editor hands back: an object (the
      'info' editor) or a string (every other editor). */
  datatype SectionData = Fields(patch: InfoPatch) | Text(text: string)

  /** `{type, data}` of the report section being edited. */
  datatype ReportSection = ReportSection(kind: string, data: SectionData)

  /** The arguments an analysis request was started with. */
  datatype AnalysisCall = AnalysisCall(text: string, mode: AnalysisMode, lang: Language)

  /** The arguments a summary or plan request was started with. */
  datatype ReportCall = ReportCall(sessions: seq<Session>, clientInfo: ClientInfo, lang: Language)

  /** How an awaited promise settled. */
  datatype Settled<T> = Resolved(value: T) | Rejected

  /** Analysis text the controller shows when the analysis promise rejects. */
  function AppAnalysisFailure(lang: Language): string {
    if lang == Zh then "分析生成失败，请重试。" else "Analysis failed."
  }

  class App {
    var view: ViewState
    var lang: Language
    var archives: seq<Archive>
    var currentCaseId: Option<string>
    var clientInfo: ClientInfo
    var sessions: seq<Session>
    var currentInput: string
    var currentAnalysis: string
    var currentPlan: string
    var currentFeedback: string
    var isAnalyzing: bool
    var isSummarizing: bool
    var isGeneratingPlan: bool
    var executiveSummary: string
    var comprehensivePlan: string
    var analysisMode: AnalysisMode
    var editingSession: Option<Session>
    var editingReportSection: Option<ReportSection>
    /** The persisted archive list. */
    var stored: StoredBlob

    /** The initial state, next to whatever storage already holds. */
    constructor (blob: StoredBlob)
      ensures view == IntakeView && lang == Zh && archives == [] && currentCaseId == None
      ensures clientInfo == DefaultClientInfo && sessions == []
      ensures currentInput == "" && currentAnalysis == "" && currentPlan == "" && currentFeedback == ""
      ensures !isAnalyzing && !isSummarizing && !isGeneratingPlan
      ensures executiveSummary == "" && comprehensivePlan == "" && analysisMode == CBT
      ensures editingSession == None && editingReportSection == None
      ensures stored == blob
    {
      view := IntakeView;
      lang := Zh;
      archives := [];
      currentCaseId := None;
      clientInfo := DefaultClientInfo;
      sessions := [];
      currentInput := "";
      currentAnalysis := "";
      currentPlan := "";
      currentFeedback := "";
      isAnalyzing := false;
      isSummarizing := false;
      isGeneratingPlan := false;
      executiveSummary := "";
      comprehensivePlan := "";
      analysisMode := CBT;
      editingSession := None;
      editingReportSection := None;
      stored := blob;
    }

    /** The start-up effect: a parsed list replaces the archive list; a
        missing or unparsable blob leaves it as it was. */
    method Mount()
      modifies this`archives
      ensures stored.Stored? ==> archives == stored.archives
      ensures !stored.Stored? ==> archives == old(archives)
    {
      if stored.Stored? {
        archives := stored.archives;
      }
    }

    method ToggleLanguage()
      modifies this`lang
      ensures lang != old(lang)
    {
      lang := if lang == Zh then En else Zh;
    }

    // -------------------------------------------------------------------
    // Session log
    // -------------------------------------------------------------------

    /** Typing into one of the four staging fields of the session view. */
    method SetStaging(field: DraftField, value: string)
      modifies this`currentInput, this`currentAnalysis, this`currentPlan, this`currentFeedback
      ensures currentInput == if field == StatementField then value else old(currentInput)
      ensures currentAnalysis == if field == AnalysisField then value else old(currentAnalysis)
      ensures currentPlan == if field == PlanField then value else old(currentPlan)
      ensures currentFeedback == if field == FeedbackField then value else old(currentFeedback)
    {
      match field
      case StatementField => currentInput := value;
      case AnalysisField => currentAnalysis := value;
      case PlanField => currentPlan := value;
      case FeedbackField => currentFeedback := value;
    }

    method SetMode(mode: AnalysisMode)
      modifies this`analysisMode
      ensures analysisMode == mode
    {
      analysisMode := mode;
    }

    /** Logging the staged statement: a blank statement changes nothing;
        otherwise one record built from the staged fields goes at the end,
        the earlier records stay, and the staging fields are emptied. */
    method AddSession(now: int, stamp: string)
      modifies this`sessions, this`currentInput, this`currentAnalysis, this`currentPlan, this`currentFeedback
      ensures IsBlank(old(currentInput)) ==>
                sessions == old(sessions) && currentInput == old(currentInput)
                && currentAnalysis == old(currentAnalysis) && currentPlan == old(currentPlan)
                && currentFeedback == old(currentFeedback)
      ensures !IsBlank(old(currentInput)) ==>
                |sessions| == |old(sessions)| + 1
                && sessions[..|old(sessions)|] == old(sessions)
                && sessions[|old(sessions)|]
                   == Session(now, stamp, old(currentInput), old(currentAnalysis), old(currentPlan),
                              old(currentFeedback), analysisMode)
                && currentInput == "" && currentAnalysis == "" && currentPlan == "" && currentFeedback == ""
      ensures IdsIncreasing(old(sessions)) && (forall t :: t in old(sessions) ==> t.id < now)
              ==> IdsIncreasing(sessions)
    {
      if Trim(currentInput) == "" {
        return;
      }
      var s := Session(now, stamp, currentInput, currentAnalysis, currentPlan, currentFeedback, analysisMode);
      if IdsIncreasing(sessions) && (forall t :: t in sessions ==> t.id < now) {
        AppendKeepsIdsIncreasing(sessions, s);
      }
      sessions := sessions + [s];
      currentInput := "";
      currentAnalysis := "";
      currentPlan := "";
      currentFeedback := "";
    }

    /** Opening the edit dialog on a logged record. */
    method OpenSessionEditor(s: Session)
      modifies this`editingSession
      ensures editingSession == Some(s)
    {
      editingSession := Some(s);
    }

    /** Typing into one content field of the edit dialog: the draft's id,
        timestamp and mode stay. */
    method EditDraft(field: DraftField, value: string)
      modifies this`editingSession
      ensures old(editingSession).None? ==> editingSession == None
      ensures old(editingSession).Some? ==>
                editingSession.Some?
                && editingSession.value == WithField(old(editingSession).value, field, value)
                && SameFrame(editingSession.value, old(editingSession).value)
    {
      if editingSession.Some? {
        editingSession := Some(WithField(editingSession.value, field, value));
      }
    }

    method CloseSessionEditor()
      modifies this`editingSession
      ensures editingSession == None
    {
      editingSession := None;
    }

    /** Saving the edit dialog: without a draft nothing changes; otherwise
        every record with the draft's id becomes the draft, the others and
        the order stay, and a draft consistent with the log leaves every
        position's id, timestamp and mode as they were. The dialog closes. */
    method SaveEditedSession()
      modifies this`sessions, this`editingSession
      ensures editingSession == None
      ensures old(editingSession).None? ==> sessions == old(sessions)
      ensures old(editingSession).Some? ==>
                var e := old(editingSession).value;
                |sessions| == |old(sessions)|
                && (forall i :: 0 <= i < |sessions| ==>
                      sessions[i] == if old(sessions)[i].id == e.id then e else old(sessions)[i])
      ensures old(editingSession).Some? && ConsistentEdit(old(sessions), old(editingSession).value) ==>
                forall i :: 0 <= i < |sessions| ==> SameFrame(sessions[i], old(sessions)[i])
    {
      if editingSession.None? {
        return;
      }
      var e := editingSession.value;
      if ConsistentEdit(sessions, e) {
        ReplaceByIdFrame(sessions, e);
      }
      sessions := ReplaceById(sessions, e);
      editingSession := None;
    }

    // -------------------------------------------------------------------
    // Intake and report
    // -------------------------------------------------------------------

    /** Typing into the intake form: the fields the patch holds are set. */
    method EditClientInfo(patch: InfoPatch)
      modifies this`clientInfo
      ensures clientInfo == Merge(old(clientInfo), patch)
    {
      clientInfo := Merge(clientInfo, patch);
    }

    /** Opening the editor of a report section with the section's current
        value; the plan section opens only once there is a plan. */
    method OpenReportSection(kind: string)
      requires kind == "info" || kind == "complaint" || kind == "summary" || kind == "plan"
      modifies this`editingReportSection
      ensures kind == "info" ==>
                editingReportSection == Some(ReportSection(kind, Fields(FullPatch(clientInfo))))
      ensures kind == "complaint" ==>
                editingReportSection == Some(ReportSection(kind, Text(clientInfo.initialProblem)))
      ensures kind == "summary" ==>
                editingReportSection == Some(ReportSection(kind, Text(executiveSummary)))
      ensures kind == "plan" && comprehensivePlan != "" ==>
                editingReportSection == Some(ReportSection(kind, Text(comprehensivePlan)))
      ensures kind == "plan" && comprehensivePlan == "" ==>
                editingReportSection == old(editingReportSection)
    {
      if kind == "info" {
        editingReportSection := Some(ReportSection(kind, Fields(FullPatch(clientInfo))));
      } else if kind == "complaint" {
        editingReportSection := Some(ReportSection(kind, Text(clientInfo.initialProblem)));
      } else if kind == "summary" {
        editingReportSection := Some(ReportSection(kind, Text(executiveSummary)));
      } else if comprehensivePlan != "" {
        editingReportSection := Some(ReportSection(kind, Text(comprehensivePlan)));
      }
    }

    method CloseReportSection()
      modifies this`editingReportSection
      ensures editingReportSection == None
    {
      editingReportSection := None;
    }

    /** Saving a report section changes only what the section names:
        'info' merges the object into the client info (a string spread
        into it adds only index keys, none of the five client-info fields),
        'complaint' sets the presenting
        problem, 'summary' the summary, 'plan' the plan, and any other kind
        nothing. The session log is never touched and the editor closes. */
    method SaveReportSection(kind: string, data: SectionData)
      requires kind == "complaint" || kind == "summary" || kind == "plan" ==> data.Text?
      modifies this`clientInfo, this`executiveSummary, this`comprehensivePlan, this`editingReportSection
      ensures kind == "info" && data.Fields? ==> clientInfo == Merge(old(clientInfo), data.patch)
      ensures kind == "complaint" ==> clientInfo == old(clientInfo).(initialProblem := data.text)
      ensures kind != "complaint" && !(kind == "info" && data.Fields?) ==> clientInfo == old(clientInfo)
      ensures executiveSummary == if kind == "summary" then data.text else old(executiveSummary)
      ensures comprehensivePlan == if kind == "plan" then data.text else old(comprehensivePlan)
      ensures editingReportSection == None
    {
      if kind == "info" {
        if data.Fields? {
          clientInfo := Merge(clientInfo, data.patch);
        }
      } else if kind == "complaint" {
        clientInfo := clientInfo.(initialProblem := data.text);
      } else if kind == "summary" {
        executiveSummary := data.text;
      } else if kind == "plan" {
        comprehensivePlan := data.text;
      }
      editingReportSection := None;
    }

    // -------------------------------------------------------------------
    // Archives
    // -------------------------------------------------------------------

    /** The id a save files the case under: the current case id unless it
        is absent or empty, else the decimal clock reading. */
    function ArchiveId(now: nat): (id: string)
      reads this`currentCaseId
      ensures currentCaseId.Some? && currentCaseId.value != "" ==> id == currentCaseId.value
      ensures currentCaseId.None? || currentCaseId.value == "" ==> id == NatToString(now)
      ensures id != ""
    {
      if currentCaseId.Some? && currentCaseId.value != "" then currentCaseId.value
      else NatToString(now)
    }

    /** The whole working case as one archive. */
    function Snapshot(id: string, stamp: string): (a: Archive)
      reads this`clientInfo, this`sessions, this`executiveSummary, this`comprehensivePlan,
            this`analysisMode, this`lang
      ensures a.id == id && a.lastModified == stamp
      ensures a.clientInfo == clientInfo && a.sessions == sessions
      ensures a.executiveSummary == executiveSummary && a.comprehensivePlan == comprehensivePlan
      ensures a.analysisMode == analysisMode && a.language == lang
    {
      Archive(id, stamp, clientInfo, sessions, executiveSummary, comprehensivePlan, analysisMode, lang)
    }

    /** Saving the working case: with no client name nothing changes;
        otherwise the snapshot replaces the entry with its id in place or
        goes in front, the case id becomes the archive id, the persisted
        list is the new list, the snapshot is what the list holds under its
        id, and at most one archive per id still holds. */
    method SaveArchive(now: nat, stamp: string)
      modifies this`archives, this`currentCaseId, this`stored
      ensures clientInfo.name == "" ==>
                archives == old(archives) && currentCaseId == old(currentCaseId) && stored == old(stored)
      ensures clientInfo.name != "" ==>
                var id := old(ArchiveId(now));
                var a := Snapshot(id, stamp);
                archives == Upsert(old(archives), a)
                && currentCaseId == Some(id)
                && stored == Stored(archives)
                && FindIndex(archives, id) >= 0 && archives[FindIndex(archives, id)] == a
      ensures UniqueIds(old(archives)) ==> UniqueIds(archives)
    {
      if clientInfo.name == "" {
        return;
      }
      var id := ArchiveId(now);
      var a := Snapshot(id, stamp);
      UpsertThenFind(archives, a);
      if UniqueIds(archives) {
        UpsertKeepsUnique(archives, a);
      }
      var k := FindIndex(archives, id);
      if k >= 0 {
        archives := archives[k := a];
      } else {
        archives := [a] + archives;
      }
      currentCaseId := Some(id);
      stored := Stored(archives);
    }

    /** Opening an archive: when confirmed the working case becomes the
        archive's and the session view opens; the language and the
        archive list are not part of the frame. When declined nothing
        changes. */
    method LoadArchive(a: Archive, confirmed: bool)
      modifies this`clientInfo, this`sessions, this`executiveSummary, this`comprehensivePlan,
               this`analysisMode, this`currentCaseId, this`view
      ensures confirmed ==>
                clientInfo == a.clientInfo && sessions == a.sessions
                && executiveSummary == a.executiveSummary && comprehensivePlan == a.comprehensivePlan
                && analysisMode == a.analysisMode && currentCaseId == Some(a.id) && view == SessionView
      ensures !confirmed ==>
                clientInfo == old(clientInfo) && sessions == old(sessions)
                && executiveSummary == old(executiveSummary) && comprehensivePlan == old(comprehensivePlan)
                && analysisMode == old(analysisMode) && currentCaseId == old(currentCaseId) && view == old(view)
    {
      if confirmed {
        clientInfo := a.clientInfo;
        sessions := a.sessions;
        executiveSummary := a.executiveSummary;
        comprehensivePlan := a.comprehensivePlan;
        analysisMode := a.analysisMode;
        currentCaseId := Some(a.id);
        view := SessionView;
      }
    }

    /** Deleting an archive: when confirmed every entry with the id goes,
        the others keep their order, the persisted list is the new list, and
        the case id is cleared exactly when it was the deleted one; the
        working case is not part of the frame. When declined nothing changes. */
    method DeleteArchive(id: string, confirmed: bool)
      modifies this`archives, this`stored, this`currentCaseId
      ensures confirmed ==>
                archives == RemoveById(old(archives), id) && stored == Stored(archives)
                && (currentCaseId == None <==> old(currentCaseId) == Some(id) || old(currentCaseId) == None)
                && (old(currentCaseId) != Some(id) ==> currentCaseId == old(currentCaseId))
                && FindIndex(archives, id) == -1
                && (UniqueIds(old(archives)) ==> UniqueIds(archives))
      ensures !confirmed ==>
                archives == old(archives) && stored == old(stored) && currentCaseId == old(currentCaseId)
    {
      if confirmed {
        RemoveByIdFacts(archives, id);
        archives := RemoveById(archives, id);
        stored := Stored(archives);
        if currentCaseId == Some(id) {
          currentCaseId := None;
        }
      }
    }

    /** Starting a new case: it happens exactly when the log is empty or
        the user confirms, and then empties the working case and returns to
        intake; the archive list, the language and the mode are not part of
        the frame. */
    method NewCase(confirmed: bool)
      modifies this`clientInfo, this`sessions, this`executiveSummary, this`comprehensivePlan,
               this`currentCaseId, this`view
      ensures |old(sessions)| == 0 || confirmed ==>
                clientInfo == DefaultClientInfo && sessions == [] && executiveSummary == ""
                && comprehensivePlan == "" && currentCaseId == None && view == IntakeView
      ensures |old(sessions)| > 0 && !confirmed ==>
                clientInfo == old(clientInfo) && sessions == old(sessions)
                && executiveSummary == old(executiveSummary) && comprehensivePlan == old(comprehensivePlan)
                && currentCaseId == old(currentCaseId) && view == old(view)
    {
      if |sessions| > 0 && confirmed {
        Reset();
      } else if |sessions| == 0 {
        Reset();
      }
    }

    method Reset()
      modifies this`clientInfo, this`sessions, this`executiveSummary, this`comprehensivePlan,
               this`currentCaseId, this`view
      ensures clientInfo == DefaultClientInfo && sessions == [] && executiveSummary == ""
      ensures comprehensivePlan == "" && currentCaseId == None && view == IntakeView
    {
      clientInfo := DefaultClientInfo;
      sessions := [];
      executiveSummary := "";
      comprehensivePlan := "";
      currentCaseId := None;
      view := IntakeView;
    }

    // -------------------------------------------------------------------
    // Text-generation requests
    // -------------------------------------------------------------------

    /** Asking for an analysis: a blank statement starts nothing; otherwise
        the busy flag is raised and the request carries the statement, the
        mode and the current language. */
    method StartAnalysis(text: string, mode: AnalysisMode) returns (call: Option<AnalysisCall>)
      modifies this`isAnalyzing
      ensures IsBlank(text) ==> call == None && isAnalyzing == old(isAnalyzing)
      ensures !IsBlank(text) ==> call == Some(AnalysisCall(text, mode, lang)) && isAnalyzing
    {
      if Trim(text) == "" {
        return None;
      }
      isAnalyzing := true;
      call := Some(AnalysisCall(text, mode, lang));
    }

    /** Applying a settled analysis request: a resolved request sets the
        staged analysis and plan to what the service returned; a rejected
        one sets only the analysis, to the controller's own failure text,
        and leaves the staged plan. The busy flag drops either way. */
    method CompleteAnalysis(call: AnalysisCall, outcome: Settled<Reply>)
      modifies this`currentAnalysis, this`currentPlan, this`isAnalyzing
      ensures outcome.Resolved? ==>
                var r := GenerateSessionAnalysis(outcome.value, call.lang);
                currentAnalysis == r.analysis && currentPlan == r.plan
      ensures outcome.Resolved? && outcome.value.Answered? ==>
                IsClean(currentAnalysis) && (IsClean(currentPlan) || currentPlan == PlanFallback(call.lang))
      ensures outcome.Rejected? ==>
                currentAnalysis == AppAnalysisFailure(call.lang) && currentPlan == old(currentPlan)
      ensures !isAnalyzing
    {
      if outcome.Resolved? {
        var r := GenerateSessionAnalysis(outcome.value, call.lang);
        currentAnalysis := r.analysis;
        currentPlan := r.plan;
      } else {
        currentAnalysis := AppAnalysisFailure(call.lang);
      }
      isAnalyzing := false;
    }

    /** Asking for the executive summary: an empty log starts nothing. */
    method StartSummary() returns (call: Option<ReportCall>)
      modifies this`isSummarizing
      ensures |sessions| == 0 ==> call == None && isSummarizing == old(isSummarizing)
      ensures |sessions| > 0 ==> call == Some(ReportCall(sessions, clientInfo, lang)) && isSummarizing
    {
      if |sessions| == 0 {
        return None;
      }
      isSummarizing := true;
      call := Some(ReportCall(sessions, clientInfo, lang));
    }

    /** Applying the summary the service produced for the request's log. */
    method CompleteSummary(call: ReportCall, reply: Reply)
      requires |call.sessions| > 0
      modifies this`executiveSummary, this`isSummarizing
      ensures executiveSummary == GenerateExecutiveSummary(call.sessions, call.lang, reply)
      ensures reply.Failed? ==> executiveSummary == SummaryFailure(call.lang)
      ensures reply.Answered? ==> IsClean(executiveSummary)
      ensures !isSummarizing
    {
      executiveSummary := GenerateExecutiveSummary(call.sessions, call.lang, reply);
      isSummarizing := false;
    }

    /** Asking for the comprehensive plan: an empty log starts nothing. */
    method StartPlan() returns (call: Option<ReportCall>)
      modifies this`isGeneratingPlan
      ensures |sessions| == 0 ==> call == None && isGeneratingPlan == old(isGeneratingPlan)
      ensures |sessions| > 0 ==> call == Some(ReportCall(sessions, clientInfo, lang)) && isGeneratingPlan
    {
      if |sessions| == 0 {
        return None;
      }
      isGeneratingPlan := true;
      call := Some(ReportCall(sessions, clientInfo, lang));
    }

    /** Applying the plan the service produced for the request's log. */
    method CompletePlan(call: ReportCall, reply: Reply)
      requires |call.sessions| > 0
      modifies this`comprehensivePlan, this`isGeneratingPlan
      ensures comprehensivePlan == GenerateComprehensivePlan(call.sessions, call.lang, reply)
      ensures reply.Failed? ==> comprehensivePlan == PlanFailure(call.lang)
      ensures reply.Answered? ==> IsClean(comprehensivePlan)
      ensures !isGeneratingPlan
    {
      comprehensivePlan := GenerateComprehensivePlan(call.sessions, call.lang, reply);
      isGeneratingPlan := false;
    }

    // -------------------------------------------------------------------
    // Navigation
    // -------------------------------------------------------------------

    /** The intake form's "start" button: only with a client name. */
    method EnterSession()
      modifies this`view
      ensures view == if clientInfo.name != "" then SessionView else old(view)
    {
      if clientInfo.name != "" {
        view := SessionView;
      }
    }

    method GoToArchives()
      modifies this`view
      ensures view == ArchivesView
    {
      view := ArchivesView;
    }

    method GoToReport()
      modifies this`view
      ensures view == ReportView
    {
      view := ReportView;
    }

    /** The report's "back" button. */
    method BackToSession()
      modifies this`view
      ensures view == SessionView
    {
      view := SessionView;
    }

    /** The mobile "session" tab: the log if there is one, else intake. */
    method MobileSessionTab()
      modifies this`view
      ensures view == if |sessions| > 0 then SessionView else IntakeView
    {
      view := if |sessions| > 0 then SessionView else IntakeView;
    }
  }

  // ---------------------------------------------------------------------
  // Handler sequences
  // ---------------------------------------------------------------------

  /** Saving a named case and then opening the entry it was filed under
      gives back the same working case, now marked as the current one. */
  method SaveThenLoad(app: App, now: nat, stamp: string)
    requires app.clientInfo.name != ""
    modifies app
    ensures app.clientInfo == old(app.clientInfo) && app.sessions == old(app.sessions)
    ensures app.executiveSummary == old(app.executiveSummary)
    ensures app.comprehensivePlan == old(app.comprehensivePlan)
    ensures app.analysisMode == old(app.analysisMode) && app.lang == old(app.lang)
    ensures app.currentCaseId.Some? && app.view == SessionView
    ensures app.stored == Stored(app.archives)
  {
    app.SaveArchive(now, stamp);
    var id := app.currentCaseId.value;
    var k := FindIndex(app.archives, id);
    app.LoadArchive(app.archives[k], true);
  }

  /** Deleting the current case and saving again files the working case
      as a new entry in front, under the fresh clock reading, instead of
      the deleted id. */
  method DeleteCurrentThenSave(app: App, now: nat, stamp: string)
    requires app.clientInfo.name != ""
    requires app.currentCaseId.Some?
    requires !HasId(app.archives, NatToString(now))
    modifies app
    ensures var rest := RemoveById(old(app.archives), old(app.currentCaseId).value);
            |app.archives| > 0 && app.archives == [app.archives[0]] + rest
            && app.archives[0].id == NatToString(now)
            && app.currentCaseId == Some(NatToString(now))
  {
    var id := app.currentCaseId.value;
    app.DeleteArchive(id, true);
    assert !HasId(app.archives, NatToString(now)) by {
      forall k | 0 <= k < |app.archives| ensures app.archives[k].id != NatToString(now) {
        assert app.archives[k] in old(app.archives);
      }
    }
    app.SaveArchive(now, stamp);
  }

  /** Opening a report section and saving it unedited changes nothing but
      closing the editor. */
  method OpenAndSaveUnedited(app: App, kind: string)
    requires kind == "info" || kind == "complaint" || kind == "summary"
             || (kind == "plan" && app.comprehensivePlan != "")
    modifies app`clientInfo, app`executiveSummary, app`comprehensivePlan, app`editingReportSection
    ensures app.clientInfo == old(app.clientInfo)
    ensures app.executiveSummary == old(app.executiveSummary)
    ensures app.comprehensivePlan == old(app.comprehensivePlan)
    ensures app.editingReportSection == None
  {
    app.OpenReportSection(kind);
    var section := app.editingReportSection.value;
    if kind == "info" {
      MergeFacts(app.clientInfo, section.data.patch, app.clientInfo);
    }
    app.SaveReportSection(section.kind, section.data);
  }
}
