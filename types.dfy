/** The records of the case-record workflow, as declared in types.ts.
    A TypeScript union of string literals becomes a datatype with one
    constructor per literal; `number` ids become `int`; `T | null` becomes
    `Option<T>`. */
module Types {

  datatype Option<+T> = None | Some(value: T) {
    /** `x ?? default`: the value, or the default when absent. */
    function GetOr(default: T): T {
      match this
      case Some(v) => v
      case None => default
    }
  }

  /** 'intake' | 'session' | 'report' | 'archives' */
  datatype ViewState = IntakeView | SessionView | ReportView | ArchivesView

  /** 'CBT' | 'Psychoanalysis' | 'Humanistic' */
  datatype AnalysisMode = CBT | Psychoanalysis | Humanistic

  /** 'zh' | 'en' */
  datatype Language = Zh | En

  datatype ClientInfo = ClientInfo(
    name: string,
    age: string,
    gender: string,
    contact: string,
    initialProblem: string)

  /** One logged client statement with its analysis, plan and feedback.
      `id` is a millisecond clock reading taken when the record is created. */
  datatype Session = Session(
    id: int,
    timestamp: string,
    clientStatement: string,
    analysis: string,
    plan: string,
    feedback: string,
    mode: AnalysisMode)

  /** A whole case as one persisted snapshot. */
  datatype Archive = Archive(
    id: string,
    lastModified: string,
    clientInfo: ClientInfo,
    sessions: seq<Session>,
    executiveSummary: string,
    comprehensivePlan: string,
    analysisMode: AnalysisMode,
    language: Language)

  /** What the statement-analysis request hands back to the controller. */
  datatype GeminiResponse = GeminiResponse(analysis: string, plan: string)
}
