/** The analysis pipeline of backend/logic.py: extraction, red-flag detection, and the
    generate / validate / rewrite / fall back loop run once for the patient view and
    once for the clinician view. The language model calls are parameters: each returns
    `Failure(message)` where the Python call raises. */
module Pipeline {
  import opened Wrappers
  import opened Models
  import Text
  import SafetyValidator
  import SafeFallbacks
  import Seqs

  /** The message for a finding that mentions a high potassium level. */
  const PotassiumMessage := "CRITICAL: Potassium level is dangerously high."

  /** A finding triggers when its lower-cased text contains both "potassium" and "6.". */
  predicate FindingTriggers(finding: string)
    ensures FindingTriggers(finding) ==> |finding| >= 9
  {
    Text.Contains(Text.Lower(finding), "potassium") && Text.Contains(Text.Lower(finding), "6.")
  }

  /** A lab triggers when its name is non-empty, mentions potassium in any case, and the
      value is strictly above 6.0. */
  predicate LabTriggers(lab: LabResult)
    ensures LabTriggers(lab) ==> lab.value > 6.0 && |lab.name| >= 9
  {
    lab.name != "" && Text.Contains(Text.Lower(lab.name), "potassium") && lab.value > 6.0
  }

  /** Both triggers ignore case: lower-casing the finding or the lab name first changes nothing. */
  lemma TriggersIgnoreCase(finding: string, lab: LabResult)
    ensures FindingTriggers(finding) <==> FindingTriggers(Text.Lower(finding))
    ensures LabTriggers(lab) <==> LabTriggers(lab.(name := Text.Lower(lab.name)))
  {
    Text.LowerIdempotent(finding);
    Text.LowerIdempotent(lab.name);
  }

  function LabMessage(lab: LabResult, show: real -> string): string {
    "CRITICAL: " + lab.name + " " + show(lab.value) + " (High)"
  }

  function ReportedLabMessage(lab: LabResult, show: real -> string): string {
    "REPORTED CRITICAL: " + lab.name + " " + show(lab.value)
  }

  function ReportedMessage(v: string): string {
    "REPORTED CRITICAL: " + v
  }

  /** The flags one finding contributes. */
  function FindingFlags(finding: string): (r: seq<string>)
    ensures |r| <= 1
    ensures r != [] <==> FindingTriggers(finding)
    ensures forall x :: x in r ==> x == PotassiumMessage
  {
    if FindingTriggers(finding) then [PotassiumMessage] else []
  }

  /** The flags one lab contributes: the potassium check first, then a reported CRITICAL flag. */
  function LabFlags(lab: LabResult, show: real -> string): (r: seq<string>)
    ensures |r| == (if LabTriggers(lab) then 1 else 0) + (if lab.flag == Some(Critical) then 1 else 0)
    ensures LabTriggers(lab) ==> r[0] == LabMessage(lab, show)
    ensures lab.flag == Some(Critical) ==> r[|r| - 1] == ReportedLabMessage(lab, show)
  {
    (if LabTriggers(lab) then [LabMessage(lab, show)] else []) +
    (if lab.flag == Some(Critical) then [ReportedLabMessage(lab, show)] else [])
  }

  /** A critical value the report lists is raised as it is, after a fixed prefix. */
  function CriticalFlags(v: string): (r: seq<string>)
    ensures |r| == 1
    ensures Text.StartsWith(r[0], "REPORTED CRITICAL: ") && r[0][19..] == v
  {
    [ReportedMessage(v)]
  }

  /** The flags of every item of `xs`, in order. */
  function Collect<T>(xs: seq<T>, flags: T -> seq<string>): seq<string>
    decreases |xs|
  {
    if xs == [] then [] else Collect(xs[..|xs| - 1], flags) + flags(xs[|xs| - 1])
  }

  lemma CollectSnoc<T>(xs: seq<T>, i: nat, flags: T -> seq<string>)
    requires i < |xs|
    ensures Collect(xs[..i + 1], flags) == Collect(xs[..i], flags) + flags(xs[i])
  {
    assert xs[..i + 1][..i] == xs[..i];
  }

  /** A string is collected exactly when some item contributes it. */
  lemma {:induction false} CollectHas<T>(xs: seq<T>, flags: T -> seq<string>)
    ensures forall y :: y in Collect(xs, flags) <==> exists i :: 0 <= i < |xs| && y in flags(xs[i])
    decreases |xs|
  {
    if xs != [] {
      var init := xs[..|xs| - 1];
      CollectHas(init, flags);
      assert forall i :: 0 <= i < |init| ==> init[i] == xs[i];
    }
  }

  /** The list `check_red_flags` builds before it removes duplicates. */
  function RawFlags(e: ReportExtraction, show: real -> string): (r: seq<string>)
    ensures forall x :: x in r <==>
              (exists i :: 0 <= i < |e.findings| && x in FindingFlags(e.findings[i])) ||
              (exists i :: 0 <= i < |e.labs| && x in LabFlags(e.labs[i], show)) ||
              (exists i :: 0 <= i < |e.criticalValues| && x in CriticalFlags(e.criticalValues[i]))
  {
    CollectHas(e.findings, FindingFlags);
    CollectHas(e.labs, lab => LabFlags(lab, show));
    CollectHas(e.criticalValues, CriticalFlags);
    Collect(e.findings, FindingFlags) + Collect(e.labs, lab => LabFlags(lab, show)) + Collect(e.criticalValues, CriticalFlags)
  }

  /** `check_red_flags(extraction)`: the three scans, then `list(set(flags))`, whose order
      Python leaves unspecified; here it is whatever order the set yields. */
  method CheckRedFlags(e: ReportExtraction, show: real -> string) returns (r: seq<string>)
    ensures Seqs.Distinct(r)
    ensures forall x :: x in r <==> x in RawFlags(e, show)
  {
    var flags: seq<string> := [];
    var i := 0;
    while i < |e.findings|
      invariant 0 <= i <= |e.findings|
      invariant flags == Collect(e.findings[..i], FindingFlags)
    {
      var desc := Text.Lower(e.findings[i]);
      if Text.Contains(desc, "potassium") && Text.Contains(desc, "6.") {
        flags := flags + [PotassiumMessage];
      }
      CollectSnoc(e.findings, i, FindingFlags);
      i := i + 1;
    }
    assert e.findings[..i] == e.findings;
    ghost var fromFindings := flags;
    i := 0;
    while i < |e.labs|
      invariant 0 <= i <= |e.labs|
      invariant flags == fromFindings + Collect(e.labs[..i], lab => LabFlags(lab, show))
    {
      var lab := e.labs[i];
      ghost var before := flags;
      if lab.name != "" && Text.Contains(Text.Lower(lab.name), "potassium") {
        if lab.value > 6.0 {
          flags := flags + ["CRITICAL: " + lab.name + " " + show(lab.value) + " (High)"];
        }
      }
      if lab.flag == Some(Critical) {
        flags := flags + ["REPORTED CRITICAL: " + lab.name + " " + show(lab.value)];
      }
      assert flags == before + LabFlags(lab, show);
      CollectSnoc(e.labs, i, lab => LabFlags(lab, show));
      Seqs.ConcatAssoc(fromFindings, Collect(e.labs[..i], lab => LabFlags(lab, show)), LabFlags(lab, show));
      i := i + 1;
    }
    assert e.labs[..i] == e.labs;
    ghost var fromLabs := flags;
    i := 0;
    while i < |e.criticalValues|
      invariant 0 <= i <= |e.criticalValues|
      invariant flags == fromLabs + Collect(e.criticalValues[..i], CriticalFlags)
    {
      flags := flags + ["REPORTED CRITICAL: " + e.criticalValues[i]];
      CollectSnoc(e.criticalValues, i, CriticalFlags);
      Seqs.ConcatAssoc(fromLabs, Collect(e.criticalValues[..i], CriticalFlags), CriticalFlags(e.criticalValues[i]));
      i := i + 1;
    }
    assert e.criticalValues[..i] == e.criticalValues;
    r := Dedup(flags);
  }

  /** `list(set(xs))`: each distinct element once, in an unspecified order. */
  method Dedup(xs: seq<string>) returns (r: seq<string>)
    ensures Seqs.Distinct(r)
    ensures forall x :: x in r <==> x in xs
  {
    var remaining := set x | x in xs;
    r := [];
    while remaining != {}
      invariant forall x :: x in xs <==> x in r || x in remaining
      invariant forall x :: x in r ==> x !in remaining
      invariant Seqs.Distinct(r)
      decreases |remaining|
    {
      var x :| x in remaining;
      r := r + [x];
      remaining := remaining - {x};
    }
  }

  /** Every finding that mentions a high potassium level raises the potassium flag. */
  lemma FindingRaisesFlag(e: ReportExtraction, show: real -> string, i: nat)
    requires i < |e.findings| && FindingTriggers(e.findings[i])
    ensures PotassiumMessage in RawFlags(e, show)
  {
    assert PotassiumMessage in FindingFlags(e.findings[i]);
    CollectHas(e.findings, FindingFlags);
  }

  /** Every lab that triggers raises its own flag, carrying its name and value. */
  lemma LabRaisesFlag(e: ReportExtraction, show: real -> string, i: nat)
    requires i < |e.labs| && LabTriggers(e.labs[i])
    ensures LabMessage(e.labs[i], show) in RawFlags(e, show)
  {
    assert LabMessage(e.labs[i], show) in LabFlags(e.labs[i], show);
    CollectHas(e.labs, lab => LabFlags(lab, show));
  }

  /** Every lab the report itself flags CRITICAL is reported. */
  lemma ReportedLabRaisesFlag(e: ReportExtraction, show: real -> string, i: nat)
    requires i < |e.labs| && e.labs[i].flag == Some(Critical)
    ensures ReportedLabMessage(e.labs[i], show) in RawFlags(e, show)
  {
    assert ReportedLabMessage(e.labs[i], show) in LabFlags(e.labs[i], show);
    CollectHas(e.labs, lab => LabFlags(lab, show));
  }

  /** Every explicit critical value is reported. */
  lemma CriticalValueRaisesFlag(e: ReportExtraction, show: real -> string, i: nat)
    requires i < |e.criticalValues|
    ensures ReportedMessage(e.criticalValues[i]) in RawFlags(e, show)
  {
    assert ReportedMessage(e.criticalValues[i]) in CriticalFlags(e.criticalValues[i]);
    CollectHas(e.criticalValues, CriticalFlags);
  }

  /** No red flag is raised exactly when nothing triggers: no finding, no lab, no
      CRITICAL lab flag and no explicit critical value. */
  lemma NoFlagsIff(e: ReportExtraction, show: real -> string)
    ensures RawFlags(e, show) == [] <==>
      (forall i :: 0 <= i < |e.findings| ==> !FindingTriggers(e.findings[i])) &&
      (forall i :: 0 <= i < |e.labs| ==> !LabTriggers(e.labs[i]) && e.labs[i].flag != Some(Critical)) &&
      e.criticalValues == []
  {
    var raw := RawFlags(e, show);
    if raw == [] {
      forall i | 0 <= i < |e.findings| ensures !FindingTriggers(e.findings[i]) {
        if FindingTriggers(e.findings[i]) { FindingRaisesFlag(e, show, i); }
      }
      forall i | 0 <= i < |e.labs| ensures !LabTriggers(e.labs[i]) && e.labs[i].flag != Some(Critical) {
        if LabTriggers(e.labs[i]) { LabRaisesFlag(e, show, i); }
        if e.labs[i].flag == Some(Critical) { ReportedLabRaisesFlag(e, show, i); }
      }
    } else {
      var y := raw[0];
      var a, b := Collect(e.findings, FindingFlags), Collect(e.labs, lab => LabFlags(lab, show));
      assert y in a || y in b || y in Collect(e.criticalValues, CriticalFlags);
      CollectHas(e.findings, FindingFlags);
      CollectHas(e.labs, lab => LabFlags(lab, show));
      CollectHas(e.criticalValues, CriticalFlags);
    }
  }

  /** A potassium value of exactly 6.0 is not above the threshold. */
  lemma ThresholdIsStrict(lab: LabResult)
    requires lab.value <= 6.0
    ensures !LabTriggers(lab)
  {
  }

  /** The ordering "worst case wins" uses. */
  function Rank(s: SafetyStatus): nat {
    match s
    case Passed => 0
    case Rewritten => 1
    case Fallback => 2
  }

  /** The status of a response: the worse of its two views' statuses. */
  function CombineStatus(p: SafetyStatus, c: SafetyStatus): (r: SafetyStatus)
    ensures r == p || r == c
    ensures Rank(r) >= Rank(p) && Rank(r) >= Rank(c)
  {
    if p == Fallback || c == Fallback then Fallback
    else if p == Rewritten || c == Rewritten then Rewritten
    else assert p == Passed; Passed
  }

  /** What `generate_safe_content` returns: the content, its status and the violations. */
  datatype Outcome<T> = Outcome(content: T, status: SafetyStatus, violations: seq<Violation>)

  /** The outcome of the generate / validate / rewrite / fall back sequence. A raised
      exception anywhere replaces everything with the fallback (built with the default
      language) and a single "System Error" violation. */
  function SafeContent<T>(e: ReportExtraction, language: string,
                          generate: (ReportExtraction, string) -> Result<T>,
                          rewrite: (string, seq<Violation>, string) -> Result<T>,
                          fallback: (ReportExtraction, string) -> T,
                          toJson: T -> string,
                          matches: (string, string) -> bool): (o: Outcome<T>)
    ensures o.status == Passed <==> o.violations == []
    ensures o.status != Fallback ==> SafetyValidator.Violations(toJson(o.content), matches) == []
    ensures o.status == Fallback ==> o.content == fallback(e, language) || o.content == fallback(e, "English")
    ensures o.status == Passed <==> generate(e, language).Success? && SafetyValidator.Violations(toJson(generate(e, language).value), matches) == []
    ensures o.status == Rewritten ==>
              generate(e, language).Success? &&
              o.violations == SafetyValidator.Violations(toJson(generate(e, language).value), matches)
    ensures generate(e, language).Success? && SafetyValidator.Violations(toJson(generate(e, language).value), matches) == [] ==>
              o == Outcome(generate(e, language).value, Passed, [])
    ensures generate(e, language).Failure? ==>
              o == Outcome(fallback(e, "English"), Fallback, [Violation("System Error", generate(e, language).error)])
    ensures generate(e, language).Success? ==>
              var draft := toJson(generate(e, language).value);
              var v1 := SafetyValidator.Violations(draft, matches);
              && (v1 != [] && rewrite(draft, v1, language).Failure? ==>
                    o == Outcome(fallback(e, "English"), Fallback, [Violation("System Error", rewrite(draft, v1, language).error)]))
              && (v1 != [] && rewrite(draft, v1, language).Success? ==>
                    var v2 := SafetyValidator.Violations(toJson(rewrite(draft, v1, language).value), matches);
                    && (v2 == [] ==> o == Outcome(rewrite(draft, v1, language).value, Rewritten, v1))
                    && (v2 != [] ==> o == Outcome(fallback(e, language), Fallback, v1 + v2)))
  {
    match generate(e, language)
    case Failure(msg) => Outcome(fallback(e, "English"), Fallback, [Violation("System Error", msg)])
    case Success(content) =>
      var v1 := SafetyValidator.Violations(toJson(content), matches);
      if v1 == [] then Outcome(content, Passed, [])
      else
        match rewrite(toJson(content), v1, language)
        case Failure(msg) => Outcome(fallback(e, "English"), Fallback, [Violation("System Error", msg)])
        case Success(rewritten) =>
          var v2 := SafetyValidator.Violations(toJson(rewritten), matches);
          if v2 == [] then Outcome(rewritten, Rewritten, v1)
          else Outcome(fallback(e, language), Fallback, v1 + v2)
  }

  /** `generate_safe_content(...)`. */
  method GenerateSafeContent<T>(e: ReportExtraction, language: string,
                                generate: (ReportExtraction, string) -> Result<T>,
                                rewrite: (string, seq<Violation>, string) -> Result<T>,
                                fallback: (ReportExtraction, string) -> T,
                                toJson: T -> string,
                                matches: (string, string) -> bool) returns (o: Outcome<T>)
    ensures o == SafeContent(e, language, generate, rewrite, fallback, toJson, matches)
  {
    var generated := generate(e, language);
    if generated.Failure? {
      return Outcome(fallback(e, "English"), Fallback, [Violation("System Error", generated.error)]);
    }
    var content := generated.value;
    var contentJson := toJson(content);
    var validation := SafetyValidator.ValidateOutput(contentJson, matches);
    if validation.isSafe {
      return Outcome(content, Passed, []);
    }
    var violations := validation.violations;
    var rewritten := rewrite(contentJson, violations, language);
    if rewritten.Failure? {
      return Outcome(fallback(e, "English"), Fallback, [Violation("System Error", rewritten.error)]);
    }
    content := rewritten.value;
    contentJson := toJson(content);
    var validationRetry := SafetyValidator.ValidateOutput(contentJson, matches);
    if validationRetry.isSafe {
      return Outcome(content, Rewritten, violations);
    }
    return Outcome(fallback(e, language), Fallback, violations + validationRetry.violations);
  }

  /** The foreign calls `analyze_report` makes. */
  datatype Engine = Engine(
    extract: string -> Result<ReportExtraction>,
    explainForPatient: (ReportExtraction, string) -> Result<PatientExplanation>,
    summarizeForClinician: (ReportExtraction, string) -> Result<ClinicianSummary>,
    rewritePatient: (string, seq<Violation>, string) -> Result<PatientExplanation>,
    rewriteClinician: (string, seq<Violation>, string) -> Result<ClinicianSummary>,
    patientJson: PatientExplanation -> string,
    clinicianJson: ClinicianSummary -> string,
    matches: (string, string) -> bool,
    show: real -> string)

  /** The patient side of `analyze_report`; a fallback is the patient fallback, whatever the language. */
  function PatientOutcome(eng: Engine, e: ReportExtraction, language: string): (o: Outcome<PatientExplanation>)
    ensures o.status == Fallback ==> o.content == SafeFallbacks.PatientFallback(e, eng.show)
    ensures o.status != Fallback ==> SafetyValidator.Violations(eng.patientJson(o.content), eng.matches) == []
  {
    SafeContent(e, language, eng.explainForPatient, eng.rewritePatient,
                (x, l) => SafeFallbacks.PatientFallback(x, eng.show), eng.patientJson, eng.matches)
  }

  /** The clinician side of `analyze_report`; a fallback is the clinician fallback, whatever the language. */
  function ClinicianOutcome(eng: Engine, e: ReportExtraction, language: string): (o: Outcome<ClinicianSummary>)
    ensures o.status == Fallback ==> o.content == SafeFallbacks.ClinicianFallback(e, eng.show)
    ensures o.status != Fallback ==> SafetyValidator.Violations(eng.clinicianJson(o.content), eng.matches) == []
  {
    SafeContent(e, language, eng.summarizeForClinician, eng.rewriteClinician,
                (x, l) => SafeFallbacks.ClinicianFallback(x, eng.show), eng.clinicianJson, eng.matches)
  }

  /** `analyze_report(text, mode, language)`: a failed extraction is re-raised; otherwise
      the response carries both views, the deduplicated red flags, the worse of the two
      statuses and the patient violations followed by the clinician ones. */
  method AnalyzeReport(text: string, mode: string, language: string, eng: Engine) returns (r: Result<ApiResponse>)
    ensures eng.extract(text).Failure? ==> r == Failure(eng.extract(text).error)
    ensures eng.extract(text).Success? ==> r.Success?
    ensures r.Success? ==>
      var e := eng.extract(text).value;
      var p := PatientOutcome(eng, e, language);
      var c := ClinicianOutcome(eng, e, language);
      && r.value.originalText == text && r.value.mode == mode && r.value.engineMode == Real
      && r.value.extraction == e
      && Seqs.Distinct(r.value.redFlags)
      && (forall x :: x in r.value.redFlags <==> x in RawFlags(e, eng.show))
      && r.value.patientAnalysis == Some(p.content)
      && r.value.clinicianAnalysis == Some(c.content)
      && r.value.safetyStatus == CombineStatus(p.status, c.status)
      && r.value.violations == p.violations + c.violations
  {
    var extracted := eng.extract(text);
    if extracted.Failure? {
      return Failure(extracted.error);
    }
    var extraction := extracted.value;
    var redFlags := CheckRedFlags(extraction, eng.show);
    var p := GenerateSafeContent(extraction, language, eng.explainForPatient, eng.rewritePatient,
                                 (x, l) => SafeFallbacks.PatientFallback(x, eng.show), eng.patientJson, eng.matches);
    var c := GenerateSafeContent(extraction, language, eng.summarizeForClinician, eng.rewriteClinician,
                                 (x, l) => SafeFallbacks.ClinicianFallback(x, eng.show), eng.clinicianJson, eng.matches);
    var finalStatus := Passed;
    if p.status == Fallback || c.status == Fallback {
      finalStatus := Fallback;
    } else if p.status == Rewritten || c.status == Rewritten {
      finalStatus := Rewritten;
    }
    r := Success(ApiResponse(text, mode, Real, redFlags, extraction, Some(p.content), Some(c.content),
                             finalStatus, p.violations + c.violations));
  }

  /** A response is passed exactly when it carries no violation, and every view it
      returns that is not a fallback passes the validator. */
  lemma ResponseStatusMeaning(eng: Engine, e: ReportExtraction, language: string)
    ensures var p, c := PatientOutcome(eng, e, language), ClinicianOutcome(eng, e, language);
      && (CombineStatus(p.status, c.status) == Passed <==> p.violations + c.violations == [])
      && (CombineStatus(p.status, c.status) != Fallback ==>
            SafetyValidator.Violations(eng.patientJson(p.content), eng.matches) == [] &&
            SafetyValidator.Violations(eng.clinicianJson(c.content), eng.matches) == [])
  {
    var p, c := PatientOutcome(eng, e, language), ClinicianOutcome(eng, e, language);
    assert p.violations + c.violations == [] <==> p.violations == [] && c.violations == [] by {
      if p.violations + c.violations == [] { assert |p.violations + c.violations| == 0; }
    }
  }
}
