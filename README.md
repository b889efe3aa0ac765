# Dual-mode medical report explainer — a Dafny model

The system takes the text of a medical report and explains it twice: once in plain
language for the patient and once as a summary for a clinician. A language model
extracts structured facts (findings, impression, labs, critical values). Fixed rules
raise red flags for dangerous potassium values and for values the report itself marks
critical. Each generated explanation then goes through a safety loop. It is checked
against 38 blocked patterns in five categories; if any pattern matches it is
rewritten once; if it still matches, a fixed safe fallback built only from the
extracted facts replaces it. The backend keeps a JSON history file of analyses. The
browser keeps its own history of at most 50 analyses in localStorage. A React
controller switches between the home screen, the history list and a report's detail.

The model has one module per core file, plus three small shared modules:

| module | file | source | form |
|---|---|---|---|
| `Wrappers` | wrappers.dfy | — | `Option` and `Result` (an exception becomes `Failure(message)`) |
| `Seqs` | seqs.dfy | — | sequence and multiset facts shared by the proofs: associativity, splitting, distinctness, splicing |
| `Text` | text.dfy | — | ASCII lower-casing, substring search, prefix test, Python's string order |
| `Models` | models.dfy | backend/models.py | datatypes, literal enumerations, validating constructors |
| `SafetyValidator` | safety_validator.dfy | backend/safety_validator.py | the pattern table; `validate_output` as a method with nested loops |
| `SafeFallbacks` | safe_fallbacks.dfy | backend/safe_fallbacks.py | the fallbacks as loop methods, each proved equal to a function |
| `Pipeline` | pipeline.dfy | backend/logic.py | red-flag scan (loops), the safety loop, `analyze_report` |
| `ServerHistory` | server_history.dfy | backend/storage.py | class `HistoryFile` over the file's list of entries |
| `BrowserHistory` | browser_history.dfy | frontend/src/utils/history.js | class `LocalHistory` over the localStorage slot |
| `App` | app.dfy | frontend/src/App.jsx | class `AppState`: the state hooks as fields, the handlers as methods |

Several things the code uses cannot be expressed inside the model, so each one is a
parameter:

- Regular-expression search is `matches(pattern, text)`.
- The formatting of a float inside an f-string is `show(value)`.
- The language-model calls (extraction, the two generators, the two rewrites) are
  functions in `Pipeline.Engine`. Each returns `Failure(message)` where the Python
  call raises.
- `model_dump_json()` is `toJson` (`patientJson`, `clinicianJson`).
- `uuid4()` and `datetime.now().isoformat()` are the `reportId` and `timestamp`
  arguments of `ServerHistory.HistoryFile.SaveReport`.
- Whether `localStorage.setItem` succeeds is the `writeOk` argument of
  `BrowserHistory.LocalHistory.SaveToHistory`.
- The HTTP exchange of `handleAnalyze` is split in two. `App.AppState.StartAnalysis`
  returns the body it posts, and `App.AppState.CompleteAnalysis` receives an
  `HttpOutcome`.

`App.SelectorLanguages` is a worked example rather than a general property: each of
the five codes of the language selector (frontend/src/App.jsx, lines 230-234) gets the
language it is labelled with.

## Model

| member | source | states |
|---|---|---|
| `Text.LowerChar` | backend/logic.py:107 | an upper-case ASCII letter becomes its lower-case letter and every other character is unchanged, so no result is an upper-case letter |
| `Text.Lower` | backend/safety_validator.py:54 | lower-casing keeps the length and lowers every character in its place |
| `Text.LowerIdempotent` | backend/safety_validator.py:54 | lower-casing an already lower-cased text changes nothing |
| `Text.StartsWith` | frontend/src/App.jsx:32-36 | JavaScript's `startsWith`: the prefix is no longer than the string and agrees with it character by character |
| `Text.Contains` | backend/logic.py:108 | Python's `sub in s`: a contained string is no longer than the text, a prefix is contained, and the empty string is contained in every text |
| `Text.Less` | backend/storage.py:58 | Python's `<` on strings: a proper prefix is smaller than the whole string, and no string is smaller than one of its prefixes |
| `Text.LessIrreflexive` | backend/storage.py:58 | Python's string order, used by the timestamp sort, never puts a string before itself |
| `Text.LessAsymmetric` | backend/storage.py:58 | the string order never holds in both directions |
| `Text.LessTransitive` | backend/storage.py:58 | the string order is transitive |
| `Text.LessTotal` | backend/storage.py:58 | of two different strings one is smaller, so the sort compares any two timestamps |
| `Models.ParseMode` | backend/models.py:6 | a mode is accepted exactly when it is spelled "patient" or "clinician", and it is then the mode of that name |
| `Models.ParseFlag` | backend/models.py:15 | a lab flag is accepted exactly when it is one of HIGH, LOW, NORMAL and CRITICAL, and it then names that flag |
| `Models.ParseStatus` | backend/models.py:50 | a safety status is accepted exactly when it is passed, rewritten or fallback |
| `Models.ParseEngine` | backend/models.py:45 | an engine mode is accepted exactly when it is real or mock |
| `Models.NewAnalysisRequest` | backend/models.py:4-7 | a request is valid exactly when the mode is absent or a valid literal; the text is kept; an absent mode is patient; an absent language is English; a present mode or language is kept |
| `Models.NewLabResult` | backend/models.py:9-15 | a lab given only a name and a value has no unit, reference range or flag |
| `Models.NewReportExtraction` | backend/models.py:17-25 | an extraction keeps its four required fields; it has no exam and no critical values |
| `Models.NewPatientExplanation` | backend/models.py:27-34 | a patient explanation keeps its six required fields and has no urgent banner |
| `Models.NewApiResponse` | backend/models.py:42-51 | a response keeps its required fields; it has no patient or clinician analysis, its status is passed and it has no violations |
| `SafetyValidator.Candidates` | backend/safety_validator.py:56-59 | the possible violations of one category are its patterns in order, each paired with the category |
| `SafetyValidator.Flatten` | backend/safety_validator.py:56-57 | the possible violations of a table, category by category: one per listed pattern |
| `SafetyValidator.Filter` | backend/safety_validator.py:58-59 | keeping only the matched violations never yields more than there were |
| `SafetyValidator.FilterHas` | backend/safety_validator.py:58-59 | a possible violation is kept exactly when it is one of the inputs and its pattern matches the text |
| `SafetyValidator.FilterSound` | backend/safety_validator.py:58-59 | every kept violation is one of the possible ones and its pattern is found in the text |
| `SafetyValidator.Violations` | backend/safety_validator.py:54-59 | the violation list of `validate_output`: no more entries than the table has patterns, each a table entry whose pattern is found in the lower-cased text |
| `SafetyValidator.CandidatesSnoc` | backend/safety_validator.py:57-59 | one more pattern adds its violation at the end of the category's list |
| `SafetyValidator.FlattenSnoc` | backend/safety_validator.py:56 | one more category adds its possible violations after the earlier categories' ones |
| `SafetyValidator.FilterSnoc` | backend/safety_validator.py:58-59 | one more possible violation is appended exactly when its pattern matches |
| `SafetyValidator.ValidateOutput` | backend/safety_validator.py:43-65 | the violations are those of the lower-cased text; the text is safe exactly when there are none; the sanitized text is the input when safe and absent otherwise |
| `SafetyValidator.Scan` | backend/safety_validator.py:56-59 | the nested loop over categories and patterns yields the matched entries of the table, in table order |
| `SafetyValidator.FlattenHas` | backend/safety_validator.py:35-41 | a pair (rule, pattern) is in the table exactly when some category has that rule name and lists that pattern |
| `SafetyValidator.CandidatesHas` | backend/safety_validator.py:56-57 | a pair is a possible violation of a category exactly when its rule is that category and its pattern is one of the category's |
| `SafetyValidator.ViolationIff` | backend/safety_validator.py:56-59 | a violation is reported exactly when its pattern belongs to its rule's category and is found in the lower-cased text |
| `SafetyValidator.Patterns` | backend/safety_validator.py:59 | the `match` field of each violation, in the same order |
| `SafetyValidator.SeverityDistinct` | backend/safety_validator.py:4-9 | no severity pattern is listed twice |
| `SafetyValidator.DiagnosisDistinct` | backend/safety_validator.py:11-15 | no diagnosis pattern is listed twice |
| `SafetyValidator.TreatmentDistinct` | backend/safety_validator.py:17-22 | no treatment pattern is listed twice |
| `SafetyValidator.LifestyleDistinct` | backend/safety_validator.py:24-26 | no lifestyle pattern is listed twice |
| `SafetyValidator.PhrasingDistinct` | backend/safety_validator.py:28-33 | no phrasing pattern is listed twice |
| `SafetyValidator.SeverityDiagnosis` | backend/safety_validator.py:4-15 | no pattern is both a severity and a diagnosis pattern |
| `SafetyValidator.SeverityTreatment` | backend/safety_validator.py:4-22 | no pattern is both a severity and a treatment pattern |
| `SafetyValidator.SeverityLifestyle` | backend/safety_validator.py:4-26 | no pattern is both a severity and a lifestyle pattern |
| `SafetyValidator.SeverityPhrasing` | backend/safety_validator.py:4-33 | no pattern is both a severity and a phrasing pattern |
| `SafetyValidator.DiagnosisTreatment` | backend/safety_validator.py:11-22 | no pattern is both a diagnosis and a treatment pattern |
| `SafetyValidator.DiagnosisLifestyle` | backend/safety_validator.py:11-26 | no pattern is both a diagnosis and a lifestyle pattern |
| `SafetyValidator.DiagnosisPhrasing` | backend/safety_validator.py:11-33 | no pattern is both a diagnosis and a phrasing pattern |
| `SafetyValidator.TreatmentLifestyle` | backend/safety_validator.py:17-26 | no pattern is both a treatment and a lifestyle pattern |
| `SafetyValidator.TreatmentPhrasing` | backend/safety_validator.py:17-33 | no pattern is both a treatment and a phrasing pattern |
| `SafetyValidator.LifestylePhrasing` | backend/safety_validator.py:24-33 | no pattern is both a lifestyle and a phrasing pattern |
| `SafetyValidator.PatternsConcat` | backend/safety_validator.py:59 | the patterns of joined violation lists are the joined patterns |
| `SafetyValidator.PatternsOfCandidates` | backend/safety_validator.py:57-59 | the patterns of a category's possible violations are its pattern list |
| `SafetyValidator.FlattenOne` | backend/safety_validator.py:56 | a table's first category alone gives that category's possible violations |
| `SafetyValidator.FlattenTwo` | backend/safety_validator.py:56 | the first two categories give their possible violations one after the other |
| `SafetyValidator.FlattenThree` | backend/safety_validator.py:56 | the first three categories give their possible violations in turn |
| `SafetyValidator.FlattenFour` | backend/safety_validator.py:56 | the first four categories give their possible violations in turn |
| `SafetyValidator.FlattenFive` | backend/safety_validator.py:56 | a five-category table gives each category's possible violations in turn |
| `SafetyValidator.FiveBlocks` | backend/safety_validator.py:56-57 | the patterns of a five-category table are its five pattern lists in table order |
| `SafetyValidator.TablePatterns` | backend/safety_validator.py:35-41 | the table is severity, diagnosis, treatment, lifestyle, then phrasing, with 38 patterns in all |
| `SafetyValidator.TableDistinct` | backend/safety_validator.py:4-41 | no pattern occurs twice in the whole table |
| `SafetyValidator.PickedPositions` | backend/safety_validator.py:56-59 | every reported violation sits at a strictly increasing position of the table, so the report keeps table order, and every matching entry is reported |
| `SafetyValidator.FilterKeepsDistinct` | backend/safety_validator.py:56-59 | when the patterns are distinct, no pattern is reported twice |
| `SafetyValidator.ViolationsBounded` | backend/safety_validator.py:43-65 | a validation reports at most 38 violations, none with the same pattern twice |
| `SafetyValidator.CaseInsensitive` | backend/safety_validator.py:54 | validating the lower-cased text gives exactly the same violations as validating the text |
| `SafeFallbacks.FlaggedLabLine` | backend/safe_fallbacks.py:9-11 | a lab's line is "name: value unit", followed by its flag between the given brackets when it has one: parentheses for the patient, square brackets for the clinician (lines 34-36) |
| `SafeFallbacks.LabText` | backend/safe_fallbacks.py:9 | the f-string `name: value unit` starts with the lab name and ": ", and ends in a space when there is no unit |
| `SafeFallbacks.PatientLabLine` | backend/safe_fallbacks.py:9-11 | the patient line is the lab text, followed by the flag in parentheses when the lab has one |
| `SafeFallbacks.ClinicianLabLine` | backend/safe_fallbacks.py:34-36 | the clinician line is the lab text, followed by the flag in square brackets when the lab has one; without a flag it equals the patient line |
| `SafeFallbacks.LabLines` | backend/safe_fallbacks.py:8-12 | one line per lab, in lab order |
| `SafeFallbacks.FindingsAndLabs` | backend/safe_fallbacks.py:6-12 | the findings unchanged and in order, followed by one line per lab in lab order |
| `SafeFallbacks.PatientFallback` | backend/safe_fallbacks.py:3-28 | the key points are the findings and lab lines; one default question; the fixed summary, reason, meaning and disclaimer; no urgent banner |
| `SafeFallbacks.ClinicianFallback` | backend/safe_fallbacks.py:30-44 | the bullet points are the findings and lab lines; no flagged entities; the fixed impression and recommendation |
| `SafeFallbacks.SafeFallbackPatient` | backend/safe_fallbacks.py:3-28 | the loop builds the patient fallback: as many key points as findings plus labs, the findings first |
| `SafeFallbacks.SafeFallbackClinician` | backend/safe_fallbacks.py:30-44 | the loop builds the clinician fallback: as many bullet points as findings plus labs, the findings first |
| `SafeFallbacks.FallbacksAgree` | backend/safe_fallbacks.py:3-44 | both fallbacks list the same items at the same positions; a flagged lab differs only in parentheses against square brackets |
| `Pipeline.CollectSnoc` | backend/logic.py:106-123 | scanning one more item appends that item's flags |
| `Pipeline.CollectHas` | backend/logic.py:106-123 | a flag is raised by a scan exactly when some scanned item raises it |
| `Pipeline.FindingTriggers` | backend/logic.py:107-108 | a triggering finding is at least as long as "potassium" |
| `Pipeline.LabTriggers` | backend/logic.py:113-114 | a triggering lab has a value above 6.0 and a name at least as long as "potassium" |
| `Pipeline.TriggersIgnoreCase` | backend/logic.py:107-113 | both triggers ignore case: lower-casing the finding or the lab name first changes nothing |
| `Pipeline.FindingFlags` | backend/logic.py:106-109 | a finding raises at most one flag, the potassium message, and raises it exactly when it triggers |
| `Pipeline.LabFlags` | backend/logic.py:112-118 | a lab raises one flag per check that fires: the potassium flag first, then the reported-critical flag |
| `Pipeline.CriticalFlags` | backend/logic.py:121-123 | a critical value raises exactly one flag: "REPORTED CRITICAL: " followed by the value |
| `Pipeline.RawFlags` | backend/logic.py:103-123 | a flag is in the list before deduplication exactly when some finding, lab or critical value raises it |
| `Pipeline.CheckRedFlags` | backend/logic.py:103-125 | the three scans end in a list without duplicates that holds exactly the flags some finding, lab or critical value raises |
| `Pipeline.Dedup` | backend/logic.py:125 | `list(set(...))` keeps every element once and adds none |
| `Pipeline.FindingRaisesFlag` | backend/logic.py:106-109 | a finding whose lower-cased text holds "potassium" and "6." raises the potassium message |
| `Pipeline.LabRaisesFlag` | backend/logic.py:112-115 | a named potassium lab above 6.0 raises a flag carrying its name and value |
| `Pipeline.ReportedLabRaisesFlag` | backend/logic.py:117-118 | a lab the report flags CRITICAL raises a reported-critical flag |
| `Pipeline.CriticalValueRaisesFlag` | backend/logic.py:121-123 | every explicit critical value raises a reported-critical flag |
| `Pipeline.NoFlagsIff` | backend/logic.py:103-125 | no flag is raised exactly when no finding or lab triggers, no lab is flagged CRITICAL and there is no critical value |
| `Pipeline.ThresholdIsStrict` | backend/logic.py:114 | a potassium value of 6.0 or less never triggers a lab flag |
| `Pipeline.CombineStatus` | backend/logic.py:41-46 | the combined status is one of the two statuses and no better than either (worst case wins) |
| `Pipeline.SafeContent` | backend/logic.py:60-101 | passed exactly when the first draft validates clean, and then it is that draft unchanged, without violations; a draft with violations whose rewrite validates clean is rewritten, carrying the first violations; a rewrite that still has violations gives the fallback in the requested language with the first violations followed by the second; a generation or rewrite that raises gives the default-language fallback with exactly one "System Error" violation carrying the message; only a fallback may fail validation |
| `Pipeline.GenerateSafeContent` | backend/logic.py:60-101 | the step-by-step generate, validate, rewrite, fall back sequence has the outcome described above |
| `Pipeline.PatientOutcome` | backend/logic.py:33-35 | the patient side of the safety loop: a fallback is the patient fallback, whatever the language, and any other content validates clean |
| `Pipeline.ClinicianOutcome` | backend/logic.py:37-39 | the clinician side of the safety loop: a fallback is the clinician fallback, whatever the language, and any other content validates clean |
| `Pipeline.AnalyzeReport` | backend/logic.py:19-58 | a failed extraction is re-raised; otherwise the response keeps the text, mode and extraction, uses the real engine, has distinct red flags that are exactly the raised ones, both views, the worse status and the patient then clinician violations |
| `Pipeline.ResponseStatusMeaning` | backend/logic.py:41-58 | a response is passed exactly when it has no violation, and unless it is a fallback both of its views validate clean |
| `ServerHistory.NewEntry` | backend/storage.py:39-46 | the entry holds the given id, timestamp and full data, the report type or "Unknown", and the red flags or the empty list |
| `ServerHistory.Summarize` | backend/storage.py:62-67 | a summary keeps the id, timestamp, report type and red flags of its entry, and drops the full data |
| `ServerHistory.Summaries` | backend/storage.py:61-69 | the list view has one summary per entry, in order, with only its id, timestamp, report type and red flags |
| `ServerHistory.SummariesCons` | backend/storage.py:61-69 | the list view of an entry followed by a list is that entry's summary followed by the list's view |
| `ServerHistory.InsertPos` | backend/storage.py:58 | an entry goes after every strictly newer entry and before the first entry that is not newer |
| `ServerHistory.Insert` | backend/storage.py:58 | inserting adds exactly one entry and loses none |
| `ServerHistory.InsertKeepsOrder` | backend/storage.py:58 | inserting into a newest-first list keeps it newest first |
| `ServerHistory.SortNewestFirst` | backend/storage.py:58 | the sort yields the same entries, each as often, newest first |
| `ServerHistory.NewestFirstPairwise` | backend/storage.py:58 | in a newest-first list every entry is at least as new as every later one |
| `ServerHistory.SummariesAppend` | backend/storage.py:61-69 | the list view of two joined lists is the two views joined |
| `ServerHistory.SummariesOfInsert` | backend/storage.py:58-69 | the list view after an insertion has the inserted entry's summary added and nothing else changed |
| `ServerHistory.SummariesOfSplice` | backend/storage.py:61-69 | the list view commutes with splicing an entry into a list |
| `ServerHistory.SummariesOfSort` | backend/storage.py:58-69 | sorting only reorders the list view: the same summaries, each as often |
| `ServerHistory.Detail` | backend/storage.py:71-76 | the full data of the first entry with the id, or none exactly when no entry has that id |
| `ServerHistory.SaveThenDetail` | backend/storage.py:28-76 | once a report with a new id is saved, looking that id up returns its full data |
| `ServerHistory.SaveKeepsOtherDetails` | backend/storage.py:28-76 | saving a report leaves the lookup of every id already stored unchanged |
| `ServerHistory.HistoryFile.constructor` | backend/storage.py:8-11 | the file starts in the given state |
| `ServerHistory.HistoryFile.LoadHistory` | backend/storage.py:13-21 | a missing or unreadable file loads as the empty list, and otherwise as its contents |
| `ServerHistory.HistoryFile.SaveHistory` | backend/storage.py:23-26 | the file is replaced by the list |
| `ServerHistory.HistoryFile.SaveReport` | backend/storage.py:28-50 | the file gains one entry at its end, built from the data, id and timestamp; the earlier entries are kept; the id is returned |
| `ServerHistory.HistoryFile.GetHistoryList` | backend/storage.py:52-69 | one summary per stored entry, newest first by timestamp, the same summaries as the stored entries |
| `ServerHistory.HistoryFile.GetReportDetail` | backend/storage.py:71-76 | the loop returns the full data of the first entry with the id, and nothing exactly when no entry has it |
| `BrowserHistory.FindIndex` | frontend/src/utils/history.js:10 | the index of the first record with the id, or -1 exactly when no record has it |
| `BrowserHistory.Find` | frontend/src/utils/history.js:44 | the first record with the id, or none exactly when no record has it |
| `BrowserHistory.IsDuplicate` | frontend/src/utils/history.js:9-15 | a save is skipped exactly when the record's id is set and some stored record carries it |
| `BrowserHistory.Prepend` | frontend/src/utils/history.js:18-23 | the record goes on top, the earlier records follow in their order, and the list is cut to 50 |
| `BrowserHistory.Reverse` | frontend/src/utils/history.js:18 | the records in reverse order |
| `BrowserHistory.Save` | frontend/src/utils/history.js:9-23 | a save leaves the list as it was or puts the record on top; it adds no other record, keeps a list of at most 50 records within 50, and afterwards a set id is found |
| `BrowserHistory.SaveAll` | frontend/src/utils/history.js:9-23 | saving records one after another keeps a list of at most 50 records within 50 and stores only earlier or saved records |
| `BrowserHistory.SaveAllKeepsNewest` | frontend/src/utils/history.js:3-29 | saving records with fresh ids one after another keeps the 50 most recent, newest first |
| `BrowserHistory.FreshIdsPrefix` | frontend/src/utils/history.js:9-15 | the records of a batch with fresh ids, less the last, still have fresh ids |
| `BrowserHistory.NewestExcludesLast` | frontend/src/utils/history.js:9-15 | the last record of a batch with fresh ids is not among the records stored before it |
| `BrowserHistory.SaveFresh` | frontend/src/utils/history.js:9-23 | saving a record whose id is set and not stored is prepending it, cut to 50 |
| `BrowserHistory.ReverseSnoc` | frontend/src/utils/history.js:18 | the newest record on top of the earlier ones in reverse is the whole batch in reverse |
| `BrowserHistory.PrependPrefix` | frontend/src/utils/history.js:18-23 | prepending to the first entries of a list is taking one more entry of the list with the record on top, at most 50 |
| `BrowserHistory.FalsyIdAlwaysPrepended` | frontend/src/utils/history.js:9-18 | a record without an id, or with an empty one, is always added, even when it is identical to a stored one |
| `BrowserHistory.SaveKeepsIdsUnique` | frontend/src/utils/history.js:9-23 | a save never stores a set id twice: if no two stored records share a set id, none do after the save |
| `BrowserHistory.SaveThenFind` | frontend/src/utils/history.js:3-48 | right after a record with a fresh id is saved, looking its id up yields that record |
| `BrowserHistory.LocalHistory.constructor` | frontend/src/utils/history.js:1 | the slot starts in the given state |
| `BrowserHistory.LocalHistory.GetHistory` | frontend/src/utils/history.js:31-39 | the stored list, or the empty list when nothing is stored or it does not parse |
| `BrowserHistory.LocalHistory.GetReport` | frontend/src/utils/history.js:41-48 | the first stored record with the id, or none exactly when no stored record has it |
| `BrowserHistory.LocalHistory.SaveToHistory` | frontend/src/utils/history.js:3-29 | a corrupt slot, an id already stored or a failing write leave the slot as it was; otherwise the record goes on top, cut to 50; a store whose set ids are unique keeps them unique |
| `App.LangName` | frontend/src/App.jsx:32-36 | es, fr, zh and hi prefixes map to Spanish, French, Mandarin and Hindi, tested in that order; English exactly when none of them matches |
| `App.RegionalVariant` | frontend/src/App.jsx:32-36 | a regional code such as es-MX gets the language of its two-letter base |
| `App.OutputFor` | frontend/src/App.jsx:121-156 | the placeholder exactly when there is no analysis; a PDF link exactly when the analysis has an id; the patient panel exactly in patient mode, showing the analysis's view and extraction |
| `App.PdfLink` | frontend/src/App.jsx:128 | the PDF link is the history URL of the backend, then the id, then "/pdf", and the id can be read back from it |
| `App.AppState.constructor` | frontend/src/App.jsx:15-24 | empty text, patient mode, home view, no selection, analysis, error or loading |
| `App.AppState.RenderContent` | frontend/src/App.jsx:70-160 | the detail exactly on the history view with a selection; the list exactly on the history view without one; otherwise the home screen with the banner exactly when there is an analysis, the error box exactly when there is an error, and the output column |
| `App.AppState.SetText` | frontend/src/App.jsx:98 | only the text changes |
| `App.AppState.StartAnalysis` | frontend/src/App.jsx:26-42 | busy, with error and analysis cleared; the posted body has the text, mode and language name; nothing else changes |
| `App.AppState.CompleteAnalysis` | frontend/src/App.jsx:43-51 | never busy afterwards; a response becomes the analysis; a failure sets its non-empty detail or else the default message |
| `App.AppState.HistorySelect` | frontend/src/App.jsx:54-58 | only the selection changes; the view stays |
| `App.AppState.BackToHome` | frontend/src/App.jsx:60-64 | the home view without a selection; the analysis is kept |
| `App.AppState.BackToHistoryList` | frontend/src/App.jsx:66-68 | only the selection is cleared |
| `App.AppState.ShowView` | frontend/src/App.jsx:186-199 | only the view changes; the selection is kept |
| `App.AppState.SetMode` | frontend/src/App.jsx:205-218 | only the mode changes |
| `App.AppState.ChangeLanguage` | frontend/src/App.jsx:225-227 | only the language code changes |
| `App.HistoryRoundTrip` | frontend/src/App.jsx:54-85 | the screen after selecting a report is its detail, the screen after going back is the list, and going home shows the home screen with the analysis untouched |
| `App.AnalyzeThenRender` | frontend/src/App.jsx:26-160 | a finished analysis leaves the home screen idle, showing the result and its red flags or an error message |

## Left out

- Regular expressions are not modelled. `re.search` is the parameter `matches`; the model proves nothing about which texts a pattern such as `\bemergency\b` matches.
- The language-model client (`extract_facts`, the two generators, `rewrite_safely`) and its prompts are not modelled. They are the functions of `Pipeline.Engine`, and any exception they raise is a `Failure` with its message.
- Pydantic validation of a rewritten dictionary (`model_class(**rewritten_dict)`) is folded into the rewrite functions: a dictionary that does not validate is a `Failure`.
- Exceptions raised by `model_dump_json` or by `re.search` itself are not modelled; `toJson` and `matches` are total.
- Floating point is not modelled. Lab values are reals, and the text of a value inside an f-string is the parameter `show`.
- `str.lower()` and `toLowerCase()` lower only ASCII letters here; Unicode case mapping is not modelled.
- Logging (`logger`, `console.error`, `print`) is left out; it changes no state the model tracks.
- `uuid4()` and the clock are arguments of `ServerHistory.HistoryFile.SaveReport`.
- File-system errors when writing the history file, `os.makedirs`, the Vercel path choice and malformed entries are not modelled. An absent or unreadable file is `None` and loads as the empty list.
- Malformed JSON stored in localStorage is the `Corrupt` slot. A value that parses but is not a list of records (for example a number) is not modelled.
- The localStorage key `BrowserHistory.HistoryKey` names the slot that `BrowserHistory.LocalHistory` holds; reading and writing under a key is the slot itself. JSON serialisation of the records is not modelled.
- `Pipeline.CheckRedFlags`: the order of `list(set(flags))` is unspecified in Python. The model promises only that the list has no duplicates and holds exactly the raised flags; it does not fix an order.
- `ServerHistory.SortNewestFirst`: the stability of Python's sort (equal timestamps keep file order) is implemented by the insertion but not stated in a contract.
- `ServerHistory.HistoryFile.GetHistoryList`: entries missing a key would raise `KeyError` in Python; every entry is assumed to have the four metadata fields.
- `SafeFallbacks.SafeFallbackPatient` and `SafeFallbacks.SafeFallbackClinician` take the `language` argument and, like the source, ignore it. The fallback text is English only.
- JSX markup, styling, icons and translations (`t(...)`) are not modelled. `App.AppState.RenderContent` returns which screen and which parts are shown, not the markup.
- The child components (`InputSection`, `PatientView`, `ClinicianView`, `RedFlagBanner`, `HistoryList`, `HistoryDetail`, `Disclaimer`), the PDF generator and the FastAPI routes in main.py are not part of this model.
- `axios` is not modelled. The failure's `err.response?.data?.detail` is an optional string; a detail that is not a string is not modelled.
- React's batching of state updates and re-rendering are not modelled; each handler is one atomic method.
- Concurrency is not modelled: overlapping analyses or concurrent writers to the history file or to localStorage.
