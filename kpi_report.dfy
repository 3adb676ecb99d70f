/** The KPI compliance report: the results of one preventive-maintenance
    archive become a report model with status counts and one card per result. */
module KpiReport {
  import opened Wrappers
  import opened Text
  import opened PreventiveMaintenance
  import opened Seqs

  /** KPIReportModel.KPIResultViewModel */
  datatype ResultView = ResultView(
    kpiId: string,
    statusClass: string,
    badgeClass: string,
    aiAnalysisClass: string,
    checkName: string,
    complianceStatus: Option<string>,
    componentName: Option<string>,
    componentType: Option<string>,
    test: Option<string>,
    measure: Option<string>,
    timeline: Option<string>,
    measurementUnit: Option<string>,
    description: Option<string>,
    interpretation: Option<string>,
    aiAnalysis: Option<string>,
    aiAnalysisHtml: Option<string>)

  /** KPIReportModel */
  datatype ReportModel = ReportModel(
    zipFileName: string,
    timestamp: string,
    totalChecks: int,
    compliantCount: nat,
    nonCompliantCount: nat,
    needsReviewCount: nat,
    results: seq<ResultView>)

  // ---------------------------------------------------------------------------
  // Counters
  // ---------------------------------------------------------------------------

  /** The results whose status equals the given text exactly. */
  function CountStatus(results: seq<KpiResult>, status: string): (n: nat)
    ensures n <= |results|
  {
    if results == [] then 0
    else
      CountStatus(results[..|results| - 1], status) +
        (if results[|results| - 1].complianceStatus == Some(status) then 1 else 0)
  }

  /** A status one of the three counters picks up. */
  predicate Counted(r: KpiResult) {
    r.complianceStatus in {Some("COMPLIANT"), Some("NON-COMPLIANT"), Some("NEEDS REVIEW")}
  }

  /** The results none of the counters picks up (UNKNOWN, null, anything else). */
  function CountUncounted(results: seq<KpiResult>): (n: nat)
    ensures n <= |results|
  {
    if results == [] then 0
    else CountUncounted(results[..|results| - 1]) + (if Counted(results[|results| - 1]) then 0 else 1)
  }

  /** The three counters and the uncounted results split the total. */
  lemma {:induction false} CountsPartition(results: seq<KpiResult>)
    ensures CountStatus(results, "COMPLIANT") + CountStatus(results, "NON-COMPLIANT") +
      CountStatus(results, "NEEDS REVIEW") + CountUncounted(results) == |results|
  {
    if results != [] {
      CountsPartition(results[..|results| - 1]);
    }
  }

  lemma {:induction false} NoneUncounted(results: seq<KpiResult>)
    ensures CountUncounted(results) == 0 <==> forall k :: 0 <= k < |results| ==> Counted(results[k])
  {
    if results != [] {
      var n := |results| - 1;
      NoneUncounted(results[..n]);
      assert forall k :: 0 <= k < n ==> results[..n][k] == results[k];
    }
  }

  /** The counters add up to at most the total, and to exactly the total when
      every status is one of the three. */
  lemma CountsWithinTotal(results: seq<KpiResult>)
    ensures CountStatus(results, "COMPLIANT") + CountStatus(results, "NON-COMPLIANT") +
      CountStatus(results, "NEEDS REVIEW") <= |results|
    ensures (CountStatus(results, "COMPLIANT") + CountStatus(results, "NON-COMPLIANT") +
      CountStatus(results, "NEEDS REVIEW") == |results|) <==>
      (forall k :: 0 <= k < |results| ==> Counted(results[k]))
  {
    CountsPartition(results);
    NoneUncounted(results);
  }

  /** For the results of one archive the counters account for every check:
      processZipFile never yields an UNKNOWN or a null status. */
  lemma ArchiveCountsComplete(entries: seq<PmEntry>, env: PmEnv)
    ensures var rs := ZipResults(entries, env);
      CountStatus(rs, "COMPLIANT") + CountStatus(rs, "NON-COMPLIANT") + CountStatus(rs, "NEEDS REVIEW") == |rs|
  {
    var rs := ZipResults(entries, env);
    ZipResultsWellJudged(entries, env);
    assert forall k :: 0 <= k < |rs| ==> Counted(rs[k]);
    CountsWithinTotal(rs);
  }

  // ---------------------------------------------------------------------------
  // View models
  // ---------------------------------------------------------------------------

  /** The suffix shared by the three CSS classes of a card. */
  function StatusSuffix(status: Option<string>): (s: string)
    ensures s in {"compliant", "non-compliant", "needs-review"}
    ensures s == "compliant" <==> status == Some("COMPLIANT")
    ensures s == "non-compliant" <==> status == Some("NON-COMPLIANT")
  {
    if status == Some("COMPLIANT") then "compliant"
    else if status == Some("NON-COMPLIANT") then "non-compliant"
    else "needs-review"
  }

  predicate KpiIdChar(c: char) {
    IsAsciiLetterOrDigit(c) || c == '_' || c == '-'
  }

  /** The text the id is made from; a null name reads "null". */
  function KpiIdSource(r: KpiResult): string {
    Str(r.componentName) + "_" + Str(r.test) + "_" + Str(r.measure)
  }

  /** generateKPIId */
  function GenerateKpiId(r: KpiResult): (id: string)
    ensures |id| == |Str(r.componentName)| + |Str(r.test)| + |Str(r.measure)| + 2
    ensures forall i :: 0 <= i < |id| ==> KpiIdChar(id[i])
    ensures forall i :: 0 <= i < |id| ==> id[i] == if KpiIdChar(KpiIdSource(r)[i]) then KpiIdSource(r)[i] else '_'
  {
    Sanitize(KpiIdSource(r), KpiIdChar)
  }

  /** Sanitizing twice changes nothing more when '_' is itself allowed. */
  lemma SanitizeIdempotent(s: string, allowed: char -> bool)
    requires allowed('_')
    ensures Sanitize(Sanitize(s, allowed), allowed) == Sanitize(s, allowed)
  {
  }

  /** An id is already a valid HTML id: sanitizing it again keeps it. */
  lemma KpiIdStable(r: KpiResult)
    ensures Sanitize(GenerateKpiId(r), KpiIdChar) == GenerateKpiId(r)
  {
    SanitizeIdempotent(KpiIdSource(r), KpiIdChar);
  }

  /** formatAIAnalysis; the markdown rendering is a parameter. */
  function FormatAiAnalysis(analysis: Option<string>, markdown: string -> string): (html: string)
    ensures analysis.None? || analysis.value == "" ==> html == ""
  {
    if analysis.None? || analysis.value == "" then "" else markdown(analysis.value)
  }

  /** convertToViewModel */
  function ConvertToViewModel(r: KpiResult, markdown: string -> string): (v: ResultView)
    ensures v.kpiId == GenerateKpiId(r) && v.checkName == CheckName(r)
    ensures v.complianceStatus == r.complianceStatus && v.aiAnalysis == r.aiAnalysis
    ensures v.componentName == r.componentName && v.componentType == r.componentType &&
      v.test == r.test && v.measure == r.measure && v.timeline == r.timeline &&
      v.measurementUnit == r.measurementUnit && v.description == r.description &&
      v.interpretation == r.interpretation
    ensures v.aiAnalysisHtml.Some? <==> (r.aiAnalysis.Some? && r.aiAnalysis.value != "")
    ensures v.aiAnalysisHtml.Some? ==> v.aiAnalysisHtml.value == markdown(r.aiAnalysis.value)
  {
    var s := StatusSuffix(r.complianceStatus);
    ResultView(
      GenerateKpiId(r),
      "status-" + s, "badge-" + s, "ai-analysis-" + s,
      CheckName(r), r.complianceStatus,
      r.componentName, r.componentType, r.test, r.measure, r.timeline,
      r.measurementUnit, r.description, r.interpretation,
      r.aiAnalysis,
      if r.aiAnalysis.Some? && r.aiAnalysis.value != "" then Some(FormatAiAnalysis(r.aiAnalysis, markdown)) else None)
  }

  lemma PrefixCancel(p: string, a: string, b: string)
    ensures p + a == p + b <==> a == b
  {
    if p + a == p + b {
      assert a == (p + a)[|p|..];
      assert b == (p + b)[|p|..];
    }
  }

  /** A class made of a prefix and the status suffix names the status the
      suffix names, in both directions. */
  lemma SuffixClass(p: string, status: Option<string>)
    ensures var c := p + StatusSuffix(status);
      (c == p + "compliant" <==> status == Some("COMPLIANT")) &&
      (c == p + "non-compliant" <==> status == Some("NON-COMPLIANT")) &&
      (c == p + "needs-review" <==> !(status in {Some("COMPLIANT"), Some("NON-COMPLIANT")}))
  {
    var s := StatusSuffix(status);
    PrefixCancel(p, s, "compliant");
    PrefixCancel(p, s, "non-compliant");
    PrefixCancel(p, s, "needs-review");
  }

  lemma StatusClassAgrees(r: KpiResult, markdown: string -> string)
    ensures var v := ConvertToViewModel(r, markdown);
      (v.statusClass == "status-compliant" <==> r.complianceStatus == Some("COMPLIANT")) &&
      (v.statusClass == "status-non-compliant" <==> r.complianceStatus == Some("NON-COMPLIANT")) &&
      (v.statusClass == "status-needs-review" <==> !(r.complianceStatus in {Some("COMPLIANT"), Some("NON-COMPLIANT")}))
  {
    SuffixClass("status-", r.complianceStatus);
    assert "status-compliant" == "status-" + "compliant";
    assert "status-non-compliant" == "status-" + "non-compliant";
    assert "status-needs-review" == "status-" + "needs-review";
  }

  lemma BadgeClassAgrees(r: KpiResult, markdown: string -> string)
    ensures var v := ConvertToViewModel(r, markdown);
      (v.badgeClass == "badge-compliant" <==> r.complianceStatus == Some("COMPLIANT")) &&
      (v.badgeClass == "badge-non-compliant" <==> r.complianceStatus == Some("NON-COMPLIANT")) &&
      (v.badgeClass == "badge-needs-review" <==> !(r.complianceStatus in {Some("COMPLIANT"), Some("NON-COMPLIANT")}))
  {
    SuffixClass("badge-", r.complianceStatus);
    assert "badge-compliant" == "badge-" + "compliant";
    assert "badge-non-compliant" == "badge-" + "non-compliant";
    assert "badge-needs-review" == "badge-" + "needs-review";
  }

  lemma AnalysisClassAgrees(r: KpiResult, markdown: string -> string)
    ensures var v := ConvertToViewModel(r, markdown);
      (v.aiAnalysisClass == "ai-analysis-compliant" <==> r.complianceStatus == Some("COMPLIANT")) &&
      (v.aiAnalysisClass == "ai-analysis-non-compliant" <==> r.complianceStatus == Some("NON-COMPLIANT")) &&
      (v.aiAnalysisClass == "ai-analysis-needs-review" <==> !(r.complianceStatus in {Some("COMPLIANT"), Some("NON-COMPLIANT")}))
  {
    SuffixClass("ai-analysis-", r.complianceStatus);
    assert "ai-analysis-compliant" == "ai-analysis-" + "compliant";
    assert "ai-analysis-non-compliant" == "ai-analysis-" + "non-compliant";
    assert "ai-analysis-needs-review" == "ai-analysis-" + "needs-review";
  }

  /** The three classes of a card name the same status: the compliant classes
      exactly for COMPLIANT, the non-compliant ones exactly for NON-COMPLIANT,
      and the needs-review ones for everything else. */
  lemma CardClassesAgree(r: KpiResult, markdown: string -> string)
    ensures var v := ConvertToViewModel(r, markdown);
      (v.statusClass == "status-compliant" <==> r.complianceStatus == Some("COMPLIANT")) &&
      (v.badgeClass == "badge-compliant" <==> r.complianceStatus == Some("COMPLIANT")) &&
      (v.aiAnalysisClass == "ai-analysis-compliant" <==> r.complianceStatus == Some("COMPLIANT")) &&
      (v.statusClass == "status-non-compliant" <==> r.complianceStatus == Some("NON-COMPLIANT")) &&
      (v.badgeClass == "badge-non-compliant" <==> r.complianceStatus == Some("NON-COMPLIANT")) &&
      (v.aiAnalysisClass == "ai-analysis-non-compliant" <==> r.complianceStatus == Some("NON-COMPLIANT")) &&
      (v.statusClass == "status-needs-review" <==> !(r.complianceStatus in {Some("COMPLIANT"), Some("NON-COMPLIANT")})) &&
      (v.badgeClass == "badge-needs-review" <==> !(r.complianceStatus in {Some("COMPLIANT"), Some("NON-COMPLIANT")})) &&
      (v.aiAnalysisClass == "ai-analysis-needs-review" <==> !(r.complianceStatus in {Some("COMPLIANT"), Some("NON-COMPLIANT")}))
  {
    StatusClassAgrees(r, markdown);
    BadgeClassAgrees(r, markdown);
    AnalysisClassAgrees(r, markdown);
  }

  // ---------------------------------------------------------------------------
  // buildReportModel
  // ---------------------------------------------------------------------------

  /** buildReportModel; the timestamp and the markdown rendering are
      parameters. */
  method BuildReportModel(results: seq<KpiResult>, zipFileName: string, timestamp: string,
                          markdown: string -> string)
    returns (model: ReportModel)
    ensures model.zipFileName == zipFileName && model.timestamp == timestamp
    ensures model.totalChecks == |results|
    ensures model.compliantCount == CountStatus(results, "COMPLIANT")
    ensures model.nonCompliantCount == CountStatus(results, "NON-COMPLIANT")
    ensures model.needsReviewCount == CountStatus(results, "NEEDS REVIEW")
    ensures |model.results| == |results|
    ensures forall k :: 0 <= k < |results| ==> model.results[k] == ConvertToViewModel(results[k], markdown)
  {
    var viewModels: seq<ResultView> := [];
    var i := 0;
    while i < |results|
      invariant 0 <= i <= |results|
      invariant |viewModels| == i
      invariant forall k :: 0 <= k < i ==> viewModels[k] == ConvertToViewModel(results[k], markdown)
    {
      MapSnoc(results, viewModels, r => ConvertToViewModel(r, markdown));
      viewModels := viewModels + [ConvertToViewModel(results[i], markdown)];
      i := i + 1;
    }
    model := ReportModel(
      zipFileName, timestamp, |results|,
      CountStatus(results, "COMPLIANT"),
      CountStatus(results, "NON-COMPLIANT"),
      CountStatus(results, "NEEDS REVIEW"),
      viewModels);
  }
}
