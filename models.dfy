/** The records and enumerations of backend/models.py, with the defaults the
    validating constructors apply and the literal spellings of every enumeration. */
module Models {
  import opened Wrappers

  /** `Literal["patient", "clinician"]`. */
  datatype Mode = Patient | Clinician

  function ModeName(m: Mode): string {
    match m
    case Patient => "patient"
    case Clinician => "clinician"
  }

  /** Validation of a `mode` literal: exactly the two spellings are accepted. */
  function ParseMode(s: string): (r: Option<Mode>)
    ensures forall m :: r == Some(m) <==> s == ModeName(m)
  {
    if s == "patient" then Some(Patient)
    else if s == "clinician" then Some(Clinician)
    else None
  }

  /** `Literal["HIGH", "LOW", "NORMAL", "CRITICAL"]`. */
  datatype LabFlag = High | Low | Normal | Critical

  function FlagName(f: LabFlag): string {
    match f
    case High => "HIGH"
    case Low => "LOW"
    case Normal => "NORMAL"
    case Critical => "CRITICAL"
  }

  function ParseFlag(s: string): (r: Option<LabFlag>)
    ensures forall f :: r == Some(f) <==> s == FlagName(f)
  {
    if s == "HIGH" then Some(High)
    else if s == "LOW" then Some(Low)
    else if s == "NORMAL" then Some(Normal)
    else if s == "CRITICAL" then Some(Critical)
    else None
  }

  /** `Literal["passed", "rewritten", "fallback"]`. */
  datatype SafetyStatus = Passed | Rewritten | Fallback

  function StatusName(s: SafetyStatus): string {
    match s
    case Passed => "passed"
    case Rewritten => "rewritten"
    case Fallback => "fallback"
  }

  function ParseStatus(s: string): (r: Option<SafetyStatus>)
    ensures forall t :: r == Some(t) <==> s == StatusName(t)
  {
    if s == "passed" then Some(Passed)
    else if s == "rewritten" then Some(Rewritten)
    else if s == "fallback" then Some(Fallback)
    else None
  }

  /** `Literal["real", "mock"]`. */
  datatype EngineMode = Real | Mock

  function EngineName(e: EngineMode): string {
    match e
    case Real => "real"
    case Mock => "mock"
  }

  function ParseEngine(s: string): (r: Option<EngineMode>)
    ensures forall e :: r == Some(e) <==> s == EngineName(e)
  {
    if s == "real" then Some(Real)
    else if s == "mock" then Some(Mock)
    else None
  }

  /** The body of `POST /analyze`. */
  datatype AnalysisRequest = AnalysisRequest(text: string, mode: Mode, language: string)

  /** Builds a request from the fields a client sent; an absent field takes its
      default, a `mode` outside the literal is a validation error. */
  function NewAnalysisRequest(text: string, mode: Option<string>, language: Option<string>): (r: Result<AnalysisRequest>)
    ensures r.Success? <==> (mode.None? || ParseMode(mode.value).Some?)
    ensures r.Success? ==> r.value.text == text
    ensures r.Success? && mode.None? ==> r.value.mode == Patient
    ensures r.Success? && mode.Some? ==> ModeName(r.value.mode) == mode.value
    ensures r.Success? && language.None? ==> r.value.language == "English"
    ensures r.Success? && language.Some? ==> r.value.language == language.value
  {
    match mode
    case None => Success(AnalysisRequest(text, Patient, language.GetOr("English")))
    case Some(s) =>
      match ParseMode(s)
      case Some(m) => Success(AnalysisRequest(text, m, language.GetOr("English")))
      case None => Failure("mode: Input should be 'patient' or 'clinician'")
  }

  /** One laboratory value; `value` is a real number (not an IEEE float). */
  datatype LabResult = LabResult(
    name: string,
    value: real,
    unit: Option<string>,
    referenceLow: Option<real>,
    referenceHigh: Option<real>,
    flag: Option<LabFlag>)

  /** A lab result given only its required fields. */
  function NewLabResult(name: string, value: real): (r: LabResult)
    ensures r.name == name && r.value == value
    ensures r.unit.None? && r.referenceLow.None? && r.referenceHigh.None? && r.flag.None?
  {
    LabResult(name, value, None, None, None, None)
  }

  /** Structured facts extracted from a report; `reportType` is any string. */
  datatype ReportExtraction = ReportExtraction(
    reportType: string,
    exam: Option<string>,
    findings: seq<string>,
    impression: seq<string>,
    labs: seq<LabResult>,
    criticalValues: seq<string>)

  /** An extraction given only its required fields. */
  function NewReportExtraction(reportType: string, findings: seq<string>, impression: seq<string>, labs: seq<LabResult>): (r: ReportExtraction)
    ensures r.reportType == reportType && r.findings == findings
    ensures r.impression == impression && r.labs == labs
    ensures r.exam.None? && r.criticalValues == []
  {
    ReportExtraction(reportType, None, findings, impression, labs, [])
  }

  datatype PatientExplanation = PatientExplanation(
    summary: string,
    keyPoints: seq<string>,
    whyNoted: string,
    whatThisMeans: seq<string>,
    questionsToAsk: seq<string>,
    disclaimer: string,
    urgentBanner: Option<string>)

  /** A patient explanation given only its required fields. */
  function NewPatientExplanation(summary: string, keyPoints: seq<string>, whyNoted: string,
                                 whatThisMeans: seq<string>, questionsToAsk: seq<string>, disclaimer: string): (r: PatientExplanation)
    ensures r.summary == summary && r.keyPoints == keyPoints && r.whyNoted == whyNoted
    ensures r.whatThisMeans == whatThisMeans && r.questionsToAsk == questionsToAsk
    ensures r.disclaimer == disclaimer && r.urgentBanner.None?
  {
    PatientExplanation(summary, keyPoints, whyNoted, whatThisMeans, questionsToAsk, disclaimer, None)
  }

  datatype ClinicianSummary = ClinicianSummary(
    impression: string,
    findingsBulletPoints: seq<string>,
    flaggedEntities: seq<string>,
    recommendations: seq<string>)

  /** One entry of `violations`: the dictionary `{"rule": ..., "match": ...}`. */
  datatype Violation = Violation(rule: string, matched: string)

  datatype ApiResponse = ApiResponse(
    originalText: string,
    mode: string,
    engineMode: EngineMode,
    redFlags: seq<string>,
    extraction: ReportExtraction,
    patientAnalysis: Option<PatientExplanation>,
    clinicianAnalysis: Option<ClinicianSummary>,
    safetyStatus: SafetyStatus,
    violations: seq<Violation>)

  /** A response given only its required fields. */
  function NewApiResponse(originalText: string, mode: string, engineMode: EngineMode,
                          redFlags: seq<string>, extraction: ReportExtraction): (r: ApiResponse)
    ensures r.originalText == originalText && r.mode == mode && r.engineMode == engineMode
    ensures r.redFlags == redFlags && r.extraction == extraction
    ensures r.patientAnalysis.None? && r.clinicianAnalysis.None?
    ensures r.safetyStatus == Passed && r.violations == []
  {
    ApiResponse(originalText, mode, engineMode, redFlags, extraction, None, None, Passed, [])
  }
}
