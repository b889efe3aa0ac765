/** The controller of frontend/src/App.jsx: the React state hooks become the fields of
    one object, the event handlers its methods, and the choice of what `renderContent`
    shows a function of the state. The HTTP exchange of an analysis is split into the
    request it sends and the outcome it receives. */
module App {
  import opened Wrappers
  import opened Models
  import Text
  import opened BrowserHistory

  /** The message shown when a failed request carries no usable `detail`. */
  const DefaultError := "Failed to analyze report. Please ensure the backend is running."

  /** The language name sent to the backend for an i18next language code. */
  function LangName(code: string): (r: string)
    ensures Text.StartsWith(code, "es") ==> r == "Spanish"
    ensures !Text.StartsWith(code, "es") && Text.StartsWith(code, "fr") ==> r == "French"
    ensures !Text.StartsWith(code, "es") && !Text.StartsWith(code, "fr") && Text.StartsWith(code, "zh") ==> r == "Mandarin"
    ensures !Text.StartsWith(code, "es") && !Text.StartsWith(code, "fr") && !Text.StartsWith(code, "zh") && Text.StartsWith(code, "hi") ==> r == "Hindi"
    ensures r == "English" <==> !(Text.StartsWith(code, "es") || Text.StartsWith(code, "fr") || Text.StartsWith(code, "zh") || Text.StartsWith(code, "hi"))
  {
    if Text.StartsWith(code, "es") then "Spanish"
    else if Text.StartsWith(code, "fr") then "French"
    else if Text.StartsWith(code, "zh") then "Mandarin"
    else if Text.StartsWith(code, "hi") then "Hindi"
    else "English"
  }

  /** The five codes of the language selector map to the language they are labelled with. */
  lemma SelectorLanguages()
    ensures LangName("en") == "English" && LangName("es") == "Spanish" && LangName("fr") == "French"
    ensures LangName("zh") == "Mandarin" && LangName("hi") == "Hindi"
  {
    assert "en"[..2] == "en" && "fr"[..2] == "fr" && "zh"[..2] == "zh" && "hi"[..2] == "hi";
  }

  /** Only the first two characters of a code matter: a regional variant such as
      "es-MX" or "zh-CN" gets the language of its base code. */
  lemma RegionalVariant(code: string, region: string)
    requires |code| >= 2
    ensures LangName(code + region) == LangName(code)
  {
    var s := code + region;
    assert s[..2] == code[..2];
  }

  /** Whether the home view or the history view is selected. */
  datatype View = Home | History

  /** How an analysis request ended: the response body, or a failure carrying the
      response's `detail` when there was one. */
  datatype HttpOutcome = Ok(data: Record) | Err(detail: Option<string>)

  /** The panel of the output column. */
  datatype Panel = PatientPanel(explanation: Option<PatientExplanation>, extraction: ReportExtraction)
                 | ClinicianPanel(summary: Option<ClinicianSummary>, extraction: ReportExtraction)

  /** The output column: the placeholder, or the result with an optional PDF link. */
  datatype Output = Waiting | Shown(pdfLink: Option<string>, panel: Panel)

  /** What `renderContent` returns. The home screen lists the red-flag banner (present
      whenever there is an analysis), the input's busy state, the error box and the output. */
  datatype Screen = Detail(reportId: string)
                  | HistoryIndex
                  | HomeScreen(banner: Option<seq<string>>, busy: bool, errorBox: Option<string>, output: Output)

  /** The link `Download PDF` points to. */
  function PdfLink(id: string): (r: string)
    ensures |r| == |id| + 34
    ensures Text.StartsWith(r, "http://127.0.0.1:8000/history/") && r[30..|r| - 4] == id && r[|r| - 4..] == "/pdf"
  {
    "http://127.0.0.1:8000/history/" + id + "/pdf"
  }

  /** The output column for an analysis shown in a mode. */
  function OutputFor(analysis: Option<Record>, mode: Mode): (o: Output)
    ensures o.Waiting? <==> analysis.None?
    ensures o.Shown? ==> (o.pdfLink.Some? <==> Truthy(analysis.value.id))
    ensures o.Shown? && o.pdfLink.Some? ==> o.pdfLink.value == PdfLink(analysis.value.id.value)
    ensures o.Shown? ==> (o.panel.PatientPanel? <==> mode == Patient)
    ensures o.Shown? ==> o.panel.extraction == analysis.value.analysis.extraction
    ensures o.Shown? && o.panel.PatientPanel? ==> o.panel.explanation == analysis.value.analysis.patientAnalysis
    ensures o.Shown? && o.panel.ClinicianPanel? ==> o.panel.summary == analysis.value.analysis.clinicianAnalysis
  {
    match analysis
    case None => Waiting
    case Some(a) =>
      var link := if Truthy(a.id) then Some(PdfLink(a.id.value)) else None;
      if mode == Patient then Shown(link, PatientPanel(a.analysis.patientAnalysis, a.analysis.extraction))
      else Shown(link, ClinicianPanel(a.analysis.clinicianAnalysis, a.analysis.extraction))
  }

  class AppState {
    var text: string
    var mode: Mode
    var language: string
    var view: View
    var selectedReportId: Option<string>
    var analysis: Option<Record>
    var loading: bool
    var error: Option<string>

    /** The initial state; `language` is the code i18next detected. */
    constructor (language: string)
      ensures text == "" && mode == Patient && this.language == language
      ensures view == Home && selectedReportId == None
      ensures analysis == None && !loading && error == None
    {
      text := "";
      mode := Patient;
      this.language := language;
      view := Home;
      selectedReportId := None;
      analysis := None;
      loading := false;
      error := None;
    }

    /** `renderContent()`: the detail of a selected report, the history list, or the home screen. */
    function RenderContent(): (s: Screen)
      reads this
      ensures s.Detail? <==> view == History && Truthy(selectedReportId)
      ensures s.Detail? ==> s.reportId == selectedReportId.value
      ensures s.HistoryIndex? <==> view == History && !Truthy(selectedReportId)
      ensures s.HomeScreen? <==> view == Home
      ensures s.HomeScreen? ==> (s.banner.Some? <==> analysis.Some?)
      ensures s.HomeScreen? && analysis.Some? ==> s.banner == Some(analysis.value.analysis.redFlags)
      ensures s.HomeScreen? ==> s.busy == loading && s.output == OutputFor(analysis, mode)
      ensures s.HomeScreen? ==> (s.errorBox.Some? <==> error.Some? && error.value != "")
    {
      match view
      case History =>
        if Truthy(selectedReportId) then Detail(selectedReportId.value) else HistoryIndex
      case Home =>
        HomeScreen(if analysis.Some? then Some(analysis.value.analysis.redFlags) else None,
                   loading,
                   if error.Some? && error.value != "" then error else None,
                   OutputFor(analysis, mode))
    }

    /** The text area's `setText`. */
    method SetText(t: string)
      modifies this
      ensures text == t
      ensures mode == old(mode) && language == old(language) && view == old(view)
      ensures selectedReportId == old(selectedReportId) && analysis == old(analysis)
      ensures loading == old(loading) && error == old(error)
    {
      text := t;
    }

    /** The start of `handleAnalyze`: busy, with the previous error and analysis cleared;
        returns the body it posts. */
    method StartAnalysis() returns (req: AnalysisRequest)
      modifies this
      ensures loading && error == None && analysis == None
      ensures req == AnalysisRequest(text, mode, LangName(language))
      ensures text == old(text) && mode == old(mode) && language == old(language)
      ensures view == old(view) && selectedReportId == old(selectedReportId)
    {
      loading := true;
      error := None;
      analysis := None;
      var langName := "English";
      if Text.StartsWith(language, "es") { langName := "Spanish"; }
      else if Text.StartsWith(language, "fr") { langName := "French"; }
      else if Text.StartsWith(language, "zh") { langName := "Mandarin"; }
      else if Text.StartsWith(language, "hi") { langName := "Hindi"; }
      req := AnalysisRequest(text, mode, langName);
    }

    /** The end of `handleAnalyze`: the response becomes the analysis, or the error is the
        response's non-empty `detail` or else the default message; never busy afterwards. */
    method CompleteAnalysis(outcome: HttpOutcome)
      modifies this
      ensures !loading
      ensures outcome.Ok? ==> analysis == Some(outcome.data) && error == old(error)
      ensures outcome.Err? ==> analysis == old(analysis)
      ensures outcome.Err? && outcome.detail.Some? && outcome.detail.value != "" ==> error == outcome.detail
      ensures outcome.Err? && !(outcome.detail.Some? && outcome.detail.value != "") ==> error == Some(DefaultError)
      ensures text == old(text) && mode == old(mode) && language == old(language)
      ensures view == old(view) && selectedReportId == old(selectedReportId)
    {
      match outcome {
        case Ok(data) =>
          analysis := Some(data);
        case Err(detail) =>
          var msg := if detail.Some? && detail.value != "" then detail.value else DefaultError;
          error := Some(msg);
      }
      loading := false;
    }

    /** `handleHistorySelect(id)`: selects a report and stays on the current view. */
    method HistorySelect(id: string)
      modifies this
      ensures selectedReportId == Some(id) && view == old(view)
      ensures text == old(text) && mode == old(mode) && language == old(language)
      ensures analysis == old(analysis) && loading == old(loading) && error == old(error)
    {
      selectedReportId := Some(id);
    }

    /** `handleBackToHome()`: the home view, with no selection; the analysis is kept. */
    method BackToHome()
      modifies this
      ensures view == Home && selectedReportId == None
      ensures text == old(text) && mode == old(mode) && language == old(language)
      ensures analysis == old(analysis) && loading == old(loading) && error == old(error)
    {
      view := Home;
      selectedReportId := None;
    }

    /** `handleBackToHistoryList()`: clears only the selection. */
    method BackToHistoryList()
      modifies this
      ensures selectedReportId == None && view == old(view)
      ensures text == old(text) && mode == old(mode) && language == old(language)
      ensures analysis == old(analysis) && loading == old(loading) && error == old(error)
    {
      selectedReportId := None;
    }

    /** The "New Analysis" and "History" buttons: they switch the view and keep the selection. */
    method ShowView(v: View)
      modifies this
      ensures view == v && selectedReportId == old(selectedReportId)
      ensures text == old(text) && mode == old(mode) && language == old(language)
      ensures analysis == old(analysis) && loading == old(loading) && error == old(error)
    {
      view := v;
    }

    /** The patient and clinician buttons. */
    method SetMode(m: Mode)
      modifies this
      ensures mode == m
      ensures text == old(text) && language == old(language) && view == old(view)
      ensures selectedReportId == old(selectedReportId)
      ensures analysis == old(analysis) && loading == old(loading) && error == old(error)
    {
      mode := m;
    }

    /** The language selector's `i18n.changeLanguage`. */
    method ChangeLanguage(code: string)
      modifies this
      ensures language == code
      ensures text == old(text) && mode == old(mode) && view == old(view)
      ensures selectedReportId == old(selectedReportId)
      ensures analysis == old(analysis) && loading == old(loading) && error == old(error)
    {
      language := code;
    }
  }

  /** A session through the history screens: selecting a report shows its detail, going
      back shows the list again, and going home shows the home screen with the analysis
      untouched. */
  method HistoryRoundTrip(app: AppState, id: string) returns (s1: Screen, s2: Screen)
    requires app.view == History && id != ""
    modifies app
    ensures s1 == Detail(id) && s2 == HistoryIndex
    ensures app.view == Home && app.selectedReportId == None
    ensures app.analysis == old(app.analysis) && app.RenderContent().HomeScreen?
  {
    app.HistorySelect(id);
    s1 := app.RenderContent();
    app.BackToHistoryList();
    s2 := app.RenderContent();
    app.BackToHome();
  }

  /** A finished analysis always leaves the home screen idle, showing either the result
      or an error message. */
  method AnalyzeThenRender(app: AppState, outcome: HttpOutcome) returns (s: Screen)
    requires app.view == Home
    modifies app
    ensures s.HomeScreen? && !s.busy
    ensures outcome.Ok? ==> s.output.Shown? && s.banner == Some(outcome.data.analysis.redFlags)
    ensures outcome.Err? ==> s.output.Waiting? && s.errorBox.Some?
  {
    var req := app.StartAnalysis();
    app.CompleteAnalysis(outcome);
    s := app.RenderContent();
  }
}
