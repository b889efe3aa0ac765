/** The deterministic fallbacks of backend/safe_fallbacks.py, used when generated
    content cannot be made safe: the extraction's findings followed by one line per
    lab, and fixed English text everywhere else. `show` is the formatting of a lab
    value inside an f-string. */
module SafeFallbacks {
  import opened Wrappers
  import opened Models

  const PatientSummary := "The report contains findings that could not be automatically explained safely. Please discuss these results directly with your clinician."
  const PatientWhyNoted := "The automated system could not generate a simplified explanation for this specific report configuration."
  const PatientWhatThisMeans := ["Clinical correlation recommended."]
  /** The one default question. */
  const FallbackQuestion := "How should this be interpreted in my situation?"
  const PatientDisclaimer := "This explanation is for informational purposes only and is not a medical diagnosis or treatment recommendation. Always consult a qualified healthcare professional."
  const ClinicianImpression := "Analysis completed. Review original report for details."
  const ClinicianRecommendations := ["Review full report."]

  /** `f"{lab.name}: {lab.value} {lab.unit or ''}"`. */
  function LabText(lab: LabResult, show: real -> string): (r: string)
    ensures |r| > |lab.name| + 2 && r[..|lab.name| + 2] == lab.name + ": "
    ensures lab.unit.None? ==> r[|r| - 1] == ' '
  {
    lab.name + ": " + show(lab.value) + " " + lab.unit.GetOr("")
  }

  /** A lab's line with its flag, if any, between `open` and `close`. */
  function FlaggedLabLine(lab: LabResult, show: real -> string, open: string, close: string): (r: string)
    ensures lab.flag.None? ==> r == LabText(lab, show)
    ensures lab.flag.Some? ==> r == LabText(lab, show) + open + FlagName(lab.flag.value) + close
  {
    if lab.flag.Some? then LabText(lab, show) + open + FlagName(lab.flag.value) + close else LabText(lab, show)
  }

  /** A patient key point for a lab: the flag in parentheses. */
  function PatientLabLine(lab: LabResult, show: real -> string): (r: string)
    ensures lab.flag.None? ==> r == LabText(lab, show)
    ensures lab.flag.Some? ==> r == LabText(lab, show) + " (" + FlagName(lab.flag.value) + ")"
  {
    FlaggedLabLine(lab, show, " (", ")")
  }

  /** A clinician bullet point for a lab: the flag in square brackets. */
  function ClinicianLabLine(lab: LabResult, show: real -> string): (r: string)
    ensures lab.flag.None? ==> r == LabText(lab, show) && r == PatientLabLine(lab, show)
    ensures lab.flag.Some? ==> r == LabText(lab, show) + " [" + FlagName(lab.flag.value) + "]"
  {
    FlaggedLabLine(lab, show, " [", "]")
  }

  /** One line per lab, in lab order. */
  function LabLines(labs: seq<LabResult>, line: LabResult -> string): (r: seq<string>)
    ensures |r| == |labs|
    ensures forall i :: 0 <= i < |labs| ==> r[i] == line(labs[i])
    decreases |labs|
  {
    if labs == [] then [] else LabLines(labs[..|labs| - 1], line) + [line(labs[|labs| - 1])]
  }

  /** The findings followed by one line per lab, in lab order. */
  function FindingsAndLabs(e: ReportExtraction, line: LabResult -> string): (r: seq<string>)
    ensures |r| == |e.findings| + |e.labs|
    ensures r[..|e.findings|] == e.findings
    ensures forall i :: 0 <= i < |e.labs| ==> r[|e.findings| + i] == line(e.labs[i])
  {
    e.findings + LabLines(e.labs, line)
  }

  /** The patient fallback, which depends on neither the language nor anything generated. */
  function PatientFallback(e: ReportExtraction, show: real -> string): (p: PatientExplanation)
    ensures p.keyPoints == FindingsAndLabs(e, lab => PatientLabLine(lab, show))
    ensures p.questionsToAsk == [FallbackQuestion]
    ensures p.whatThisMeans == ["Clinical correlation recommended."]
    ensures p.summary == PatientSummary && p.whyNoted == PatientWhyNoted && p.disclaimer == PatientDisclaimer
    ensures p.urgentBanner.None?
  {
    PatientExplanation(PatientSummary, FindingsAndLabs(e, lab => PatientLabLine(lab, show)), PatientWhyNoted,
                       PatientWhatThisMeans, [FallbackQuestion], PatientDisclaimer, None)
  }

  /** The clinician fallback, which depends on neither the language nor anything generated. */
  function ClinicianFallback(e: ReportExtraction, show: real -> string): (c: ClinicianSummary)
    ensures c.findingsBulletPoints == FindingsAndLabs(e, lab => ClinicianLabLine(lab, show))
    ensures c.flaggedEntities == []
    ensures c.recommendations == ["Review full report."]
    ensures c.impression == ClinicianImpression
  {
    ClinicianSummary(ClinicianImpression, FindingsAndLabs(e, lab => ClinicianLabLine(lab, show)), [], ClinicianRecommendations)
  }

  /** `get_safe_fallback_patient(extraction, language)`: the findings are copied, then one
      line per lab is appended. */
  method SafeFallbackPatient(extraction: ReportExtraction, language: string, show: real -> string) returns (p: PatientExplanation)
    ensures p == PatientFallback(extraction, show)
    ensures |p.keyPoints| == |extraction.findings| + |extraction.labs|
    ensures p.keyPoints[..|extraction.findings|] == extraction.findings
  {
    var findingsList := extraction.findings;
    var i := 0;
    while i < |extraction.labs|
      invariant 0 <= i <= |extraction.labs|
      invariant |findingsList| == |extraction.findings| + i
      invariant findingsList == extraction.findings + LabLines(extraction.labs[..i], lab => PatientLabLine(lab, show))
    {
      var lab := extraction.labs[i];
      var valStr := lab.name + ": " + show(lab.value) + " " + lab.unit.GetOr("");
      if lab.flag.Some? {
        valStr := valStr + " (" + FlagName(lab.flag.value) + ")";
      }
      assert valStr == PatientLabLine(lab, show);
      assert extraction.labs[..i + 1][..i] == extraction.labs[..i];
      findingsList := findingsList + [valStr];
      i := i + 1;
    }
    assert extraction.labs[..|extraction.labs|] == extraction.labs;
    var keyPoints := findingsList;
    var qText := FallbackQuestion;
    p := PatientExplanation(PatientSummary, keyPoints, PatientWhyNoted, PatientWhatThisMeans, [qText], PatientDisclaimer, None);
  }

  /** `get_safe_fallback_clinician(extraction, language)`. */
  method SafeFallbackClinician(extraction: ReportExtraction, language: string, show: real -> string) returns (c: ClinicianSummary)
    ensures c == ClinicianFallback(extraction, show)
    ensures |c.findingsBulletPoints| == |extraction.findings| + |extraction.labs|
    ensures c.findingsBulletPoints[..|extraction.findings|] == extraction.findings
  {
    var findingsList := extraction.findings;
    var i := 0;
    while i < |extraction.labs|
      invariant 0 <= i <= |extraction.labs|
      invariant |findingsList| == |extraction.findings| + i
      invariant findingsList == extraction.findings + LabLines(extraction.labs[..i], lab => ClinicianLabLine(lab, show))
    {
      var lab := extraction.labs[i];
      var valStr := lab.name + ": " + show(lab.value) + " " + lab.unit.GetOr("");
      if lab.flag.Some? {
        valStr := valStr + " [" + FlagName(lab.flag.value) + "]";
      }
      assert valStr == ClinicianLabLine(lab, show);
      assert extraction.labs[..i + 1][..i] == extraction.labs[..i];
      findingsList := findingsList + [valStr];
      i := i + 1;
    }
    assert extraction.labs[..|extraction.labs|] == extraction.labs;
    c := ClinicianSummary(ClinicianImpression, findingsList, [], ClinicianRecommendations);
  }

  /** The two fallbacks list the same items in the same order; they differ only in how a
      lab's flag is bracketed. */
  lemma FallbacksAgree(e: ReportExtraction, show: real -> string, i: nat)
    requires i < |e.findings| + |e.labs|
    ensures var kp, fb := PatientFallback(e, show).keyPoints, ClinicianFallback(e, show).findingsBulletPoints;
            if i < |e.findings| then kp[i] == fb[i] == e.findings[i]
            else
              var lab := e.labs[i - |e.findings|];
              if lab.flag.None? then kp[i] == fb[i] == LabText(lab, show)
              else kp[i] == LabText(lab, show) + " (" + FlagName(lab.flag.value) + ")" &&
                   fb[i] == LabText(lab, show) + " [" + FlagName(lab.flag.value) + "]"
  {
    var kp, fb := PatientFallback(e, show).keyPoints, ClinicianFallback(e, show).findingsBulletPoints;
    if i < |e.findings| {
      assert kp[..|e.findings|][i] == kp[i];
      assert fb[..|e.findings|][i] == fb[i];
    }
  }
}
