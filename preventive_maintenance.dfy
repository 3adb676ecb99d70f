/** The preventive-maintenance analysis: every historical-data file of a
    preventive-maintenance archive whose name matches the category mapping is
    joined with its measure help, sent to the language model, and turned into a
    KPI compliance result. */
module PreventiveMaintenance {
  import opened Wrappers
  import opened Text
  import opened Json
  import AlarmReport
  import opened Seqs

  // ---------------------------------------------------------------------------
  // Data
  // ---------------------------------------------------------------------------

  /** HistoricalDataRoot.MetaData */
  datatype MetaData = MetaData(
    componentType: Option<string>,
    measure: Option<string>,
    test: Option<string>,
    timeline: Option<string>,
    componentName: Option<string>)

  /** HistoricalDataRoot.HistoricalDataContent; a JSON null (or an absent
      member) is JNull. */
  datatype HistoricalDataContent = HistoricalDataContent(
    metaData: Option<MetaData>,
    diagnosisData: Json,
    data: Json)

  /** What reading one archive entry gives: the stream fails, the text does not
      bind to HistoricalDataRoot, or the root's historicalData member. */
  datatype EntryContent =
    | Unreadable
    | Unparseable
    | Parsed(historicalData: Option<HistoricalDataContent>)

  datatype PmEntry = PmEntry(name: string, isDirectory: bool, content: EntryContent)

  /** KPIComplianceResult */
  datatype KpiResult = KpiResult(
    entryName: string,
    componentName: Option<string>,
    componentType: Option<string>,
    test: Option<string>,
    measure: Option<string>,
    timeline: Option<string>,
    description: Option<string>,
    interpretation: Option<string>,
    measurementUnit: Option<string>,
    compliant: bool,
    complianceStatus: Option<string>,
    aiAnalysis: Option<string>,
    rawData: Option<string>,
    diagnosisData: Option<string>)

  /** KPIComplianceResult.getCheckName */
  function CheckName(r: KpiResult): (s: string)
    ensures |s| == |Str(r.componentName)| + |Str(r.test)| + |Str(r.measure)| + 6
    ensures s[..|Str(r.componentName)|] == Str(r.componentName)
    ensures s[|Str(r.componentName)|..|Str(r.componentName)| + 3] == " - "
    ensures s[|Str(r.componentName)| + 3..|s| - |Str(r.measure)| - 3] == Str(r.test)
    ensures s[|s| - |Str(r.measure)| - 3..|s| - |Str(r.measure)|] == " - "
    ensures s[|s| - |Str(r.measure)|..] == Str(r.measure)
  {
    Str(r.componentName) + " - " + Str(r.test) + " - " + Str(r.measure)
  }

  /** A help resource on the class path: absent, unreadable or not a list of
      maps, or the list (a JSON null element is a null map). */
  datatype HelpDoc = HelpMissing | HelpUnreadable | HelpEntries(entries: seq<Option<seq<Member>>>)

  /** The language model's answer, or the IOException the call threw. */
  datatype AiReply = Reply(text: string) | IoFailure(message: Option<string>)

  /** What the service reads from outside: the category mapping's keys, the help
      resources, Jackson's compact and pretty writers, the language model, and
      the two size-limit properties (None when absent or not an integer). */
  datatype PmEnv = PmEnv(
    mappingKeys: seq<string>,
    help: string -> HelpDoc,
    render: Json -> string,
    pretty: Json -> string,
    ai: string -> AiReply,
    dataLimit: Option<int>,
    ddLimit: Option<int>)

  // ---------------------------------------------------------------------------
  // normalizeKey
  // ---------------------------------------------------------------------------

  predicate IsSeparator(c: char) {
    c == ' ' || c == '_' || c == '-'
  }

  /** A character normalizeKey can produce. */
  predicate NormalChar(c: char) {
    !IsSeparator(c) && !('A' <= c <= 'Z')
  }

  /** The characters of s that are not separators, lower-cased, in order. */
  function KeyChars(s: string): (r: string)
    ensures |r| <= |s|
    ensures forall i :: 0 <= i < |r| ==> NormalChar(r[i])
  {
    if s == [] then []
    else
      var c := s[|s| - 1];
      KeyChars(s[..|s| - 1]) + (if IsSeparator(c) then [] else [Lower(c)])
  }

  /** normalizeKey: null becomes the empty string. */
  function NormalizeKey(key: Option<string>): (r: string)
    ensures key.None? ==> r == ""
    ensures forall i :: 0 <= i < |r| ==> NormalChar(r[i])
  {
    if key.None? then "" else KeyChars(key.value)
  }

  lemma {:induction false} KeyCharsAppend(a: string, b: string)
    ensures KeyChars(a + b) == KeyChars(a) + KeyChars(b)
  {
    if b == [] {
      assert a + b == a;
    } else {
      var c := b[|b| - 1];
      assert (a + b)[..|a + b| - 1] == a + b[..|b| - 1];
      KeyCharsAppend(a, b[..|b| - 1]);
    }
  }

  /** A string made of normal characters is its own normal form. */
  lemma {:induction false} KeyCharsFixed(t: string)
    requires forall i :: 0 <= i < |t| ==> NormalChar(t[i])
    ensures KeyChars(t) == t
  {
    if t != [] {
      KeyCharsFixed(t[..|t| - 1]);
    }
  }

  /** normalizeKey is idempotent. */
  lemma NormalizeKeyIdempotent(key: Option<string>)
    ensures NormalizeKey(Some(NormalizeKey(key))) == NormalizeKey(key)
  {
    KeyCharsFixed(NormalizeKey(key));
  }

  /** Keys that differ only in letter case normalise alike. */
  lemma {:induction false} NormalizeKeyIgnoresCase(a: string, b: string)
    requires EqualsIgnoreCase(a, b)
    ensures NormalizeKey(Some(a)) == NormalizeKey(Some(b))
  {
    if a != [] {
      var n := |a| - 1;
      assert EqualsIgnoreCase(a[..n], b[..n]) by {
        forall i | 0 <= i < n ensures Lower(a[..n][i]) == Lower(b[..n][i]) {
          assert Lower(a[i]) == Lower(b[i]);
        }
      }
      NormalizeKeyIgnoresCase(a[..n], b[..n]);
      assert Lower(a[n]) == Lower(b[n]);
    }
  }

  /** A space, underscore or hyphen anywhere in a key does not matter. */
  lemma NormalizeKeyDropsSeparator(a: string, c: char, b: string)
    requires IsSeparator(c)
    ensures NormalizeKey(Some(a + [c] + b)) == NormalizeKey(Some(a + b))
  {
    KeyCharsAppend(a + [c], b);
    KeyCharsSeparator(a, c);
    KeyCharsAppend(a, b);
  }

  lemma KeyCharsSeparator(a: string, c: char)
    requires IsSeparator(c)
    ensures KeyChars(a + [c]) == KeyChars(a)
  {
    var ac := a + [c];
    assert ac[..|ac| - 1] == a;
  }

  // ---------------------------------------------------------------------------
  // getStringFromMap and getStringListFromMap
  // ---------------------------------------------------------------------------

  predicate KeyMatches(m: Member, nk: string) {
    NormalizeKey(Some(m.name)) == nk
  }

  /** i is the first member, in iteration order, whose key matches. */
  predicate IsFirstKeyMatch(ms: seq<Member>, nk: string, i: int) {
    0 <= i < |ms| && KeyMatches(ms[i], nk) && forall k :: 0 <= k < i ==> !KeyMatches(ms[k], nk)
  }

  function FirstKeyMatch(ms: seq<Member>, nk: string): (i: nat)
    ensures i <= |ms|
    ensures i < |ms| ==> IsFirstKeyMatch(ms, nk, i)
    ensures i == |ms| ==> forall k :: 0 <= k < |ms| ==> !KeyMatches(ms[k], nk)
  {
    if ms == [] then 0
    else if KeyMatches(ms[0], nk) then 0
    else
      var j := FirstKeyMatch(ms[1..], nk);
      assert forall k :: 1 <= k <= j ==> ms[k] == ms[1..][k - 1];
      1 + j
  }

  lemma FirstKeyMatchUnique(ms: seq<Member>, nk: string, i: int)
    requires IsFirstKeyMatch(ms, nk, i)
    ensures i == FirstKeyMatch(ms, nk)
  {
  }

  /** getStringFromMap: String.valueOf of the value under the first key whose
      normal form is the query's; null for a null map or key, a null value, or
      no matching key. */
  function GetStringFromMap(m: Option<seq<Member>>, key: Option<string>): (r: Option<string>)
    ensures m.None? || key.None? ==> r.None?
  {
    if m.None? || key.None? then None
    else
      var ms := m.value;
      var i := FirstKeyMatch(ms, NormalizeKey(key));
      if i < |ms| && ms[i].value != JNull then Some(ValueOf(ms[i].value)) else None
  }

  /** The lookup answers exactly when the first matching member holds a
      non-null value, and answers with that value. */
  lemma GetStringFromMapSpec(m: Option<seq<Member>>, key: Option<string>)
    ensures var r := GetStringFromMap(m, key);
      (r.Some? <==> (m.Some? && key.Some? &&
        exists i :: IsFirstKeyMatch(m.value, NormalizeKey(key), i) && m.value[i].value != JNull)) &&
      (r.Some? ==> forall i :: IsFirstKeyMatch(m.value, NormalizeKey(key), i) ==>
        r.value == ValueOf(m.value[i].value))
  {
    if m.Some? && key.Some? {
      var ms := m.value;
      var i := FirstKeyMatch(ms, NormalizeKey(key));
      forall j | IsFirstKeyMatch(ms, NormalizeKey(key), j) ensures j == i {
        FirstKeyMatchUnique(ms, NormalizeKey(key), j);
      }
    }
  }

  /** A matching key whose value is a list. */
  predicate IsListMatch(m: Member, nk: string) {
    KeyMatches(m, nk) && m.value.JArray?
  }

  function FirstListMatch(ms: seq<Member>, nk: string): (i: nat)
    ensures i <= |ms|
    ensures i < |ms| ==> IsListMatch(ms[i], nk)
    ensures forall k :: 0 <= k < i ==> !IsListMatch(ms[k], nk)
  {
    if ms == [] then 0
    else if IsListMatch(ms[0], nk) then 0
    else
      var j := FirstListMatch(ms[1..], nk);
      assert forall k :: 1 <= k <= j && k < |ms| ==> ms[k] == ms[1..][k - 1];
      1 + j
  }

  /** The list's elements through String.valueOf, nulls kept. */
  function ListStrings(items: seq<Json>): (r: seq<Option<string>>)
    ensures |r| == |items|
    ensures forall i :: 0 <= i < |items| ==> (r[i].None? <==> items[i] == JNull)
    ensures forall i :: 0 <= i < |items| && r[i].Some? ==> r[i].value == ValueOf(items[i])
  {
    seq(|items|, i requires 0 <= i < |items| => if items[i] == JNull then None else Some(ValueOf(items[i])))
  }

  /** getStringListFromMap: the first matching key that holds a list wins; a
      matching key with any other value is passed over. */
  function GetStringListFromMap(m: Option<seq<Member>>, key: Option<string>): (r: Option<seq<Option<string>>>)
    ensures r.Some? <==> (m.Some? && key.Some? &&
      exists i :: 0 <= i < |m.value| && IsListMatch(m.value[i], NormalizeKey(key)))
    ensures r.Some? ==> exists i :: (0 <= i < |m.value| && IsListMatch(m.value[i], NormalizeKey(key)) &&
      (forall k :: 0 <= k < i ==> !IsListMatch(m.value[k], NormalizeKey(key))) &&
      r.value == ListStrings(m.value[i].value.items))
  {
    if m.None? || key.None? then None
    else
      var ms := m.value;
      var i := FirstListMatch(ms, NormalizeKey(key));
      if i < |ms| then Some(ListStrings(ms[i].value.items)) else None
  }

  /** When the first matching key holds a scalar and a later one a list, the
      two lookups disagree: the string lookup answers with the scalar, the list
      lookup with the later list. */
  lemma ListLookupPassesOverScalars(ms: seq<Member>, key: string, i: int, j: int)
    requires IsFirstKeyMatch(ms, NormalizeKey(Some(key)), i)
    requires ms[i].value != JNull && !ms[i].value.JArray?
    requires i < j < |ms| && IsListMatch(ms[j], NormalizeKey(Some(key)))
    requires forall k :: i < k < j ==> !IsListMatch(ms[k], NormalizeKey(Some(key)))
    ensures GetStringFromMap(Some(ms), Some(key)) == Some(ValueOf(ms[i].value))
    ensures GetStringListFromMap(Some(ms), Some(key)) == Some(ListStrings(ms[j].value.items))
  {
    var nk := NormalizeKey(Some(key));
    assert FirstListMatch(ms, nk) == j by {
      assert forall k :: 0 <= k < j ==> !IsListMatch(ms[k], nk);
    }
  }

  // ---------------------------------------------------------------------------
  // getMeasureHelp
  // ---------------------------------------------------------------------------

  /** The help entry's measurement, trimmed, equals the measure, trimmed,
      ignoring case. */
  predicate HelpMatches(entry: Option<seq<Member>>, measure: string) {
    var v := MeasurementOf(entry);
    v.Some? && EqualsIgnoreCase(Trim(v.value), Trim(measure))
  }

  /** The help entry's "measurement" value, looked up like any other key; a
      null entry has none. */
  function MeasurementOf(entry: Option<seq<Member>>): (v: Option<string>)
    ensures entry.None? ==> v.None?
  {
    GetStringFromMap(entry, Some("measurement"))
  }

  /** entry is the first help entry that matches. */
  predicate IsFirstHelp(es: seq<Option<seq<Member>>>, measure: string, entry: seq<Member>) {
    exists i :: 0 <= i < |es| && es[i] == Some(entry) && HelpMatches(es[i], measure) &&
      forall k :: 0 <= k < i ==> !HelpMatches(es[k], measure)
  }

  /** The match test for one measure. */
  function HelpTest(measure: string): Option<seq<Member>> -> bool {
    e => HelpMatches(e, measure)
  }

  /** The first matching help entry, or |es|. */
  function FirstHelpMatch(es: seq<Option<seq<Member>>>, measure: string): (i: nat)
    ensures i <= |es|
  {
    FirstFrom(es, HelpTest(measure), 0)
  }

  /** The index FirstHelpMatch returns matches, and none before it does. */
  lemma FirstHelpMatchSpec(es: seq<Option<seq<Member>>>, measure: string)
    ensures var i := FirstHelpMatch(es, measure);
      (i < |es| ==> HelpMatches(es[i], measure)) &&
      forall k :: 0 <= k < i ==> !HelpMatches(es[k], measure)
  {
    FirstFromSpec(es, HelpTest(measure), 0);
  }

  /** The class-path resource of a test's help: "eghelp/" + the test name with
      every '/' removed + ".json". */
  function HelpFilePath(test: string): string {
    AlarmReport.HelpPath(AlarmReport.HelpFileName(test))
  }

  datatype HelpLookup =
    | HelpFound(entry: seq<Member>)
    | NoHelp                          // getMeasureHelp returned null
    | HelpNotFound(message: string)   // MeasureHelpNotFoundException

  function MissingHelpMessage(test: string, measure: string): string {
    "Measure help not found for test: " + test + ", measure: " + measure
  }

  /** getMeasureHelp */
  function GetMeasureHelp(test: Option<string>, measure: Option<string>, help: string -> HelpDoc): (r: HelpLookup)
    ensures r.NoHelp? <==> test.None? || measure.None? || !help(HelpFilePath(test.value)).HelpEntries?
    ensures r.HelpFound? ==> (test.Some? && measure.Some? && help(HelpFilePath(test.value)).HelpEntries? &&
      IsFirstHelp(help(HelpFilePath(test.value)).entries, measure.value, r.entry))
    ensures r.HelpNotFound? <==> (test.Some? && measure.Some? && help(HelpFilePath(test.value)).HelpEntries? &&
      forall k :: 0 <= k < |help(HelpFilePath(test.value)).entries| ==>
        !HelpMatches(help(HelpFilePath(test.value)).entries[k], measure.value))
    ensures r.HelpNotFound? ==> r.message == MissingHelpMessage(test.value, measure.value)
  {
    if test.None? || measure.None? then NoHelp
    else
      match help(HelpFilePath(test.value))
      case HelpMissing => NoHelp
      case HelpUnreadable => NoHelp
      case HelpEntries(es) =>
        var i := FirstHelpMatch(es, measure.value);
        FirstHelpMatchSpec(es, measure.value);
        if i < |es| then
          assert es[i].Some?;
          assert IsFirstHelp(es, measure.value, es[i].value);
          HelpFound(es[i].value)
        else HelpNotFound(MissingHelpMessage(test.value, measure.value))
  }

  // ---------------------------------------------------------------------------
  // shouldProcessEntry and getLogFileName
  // ---------------------------------------------------------------------------

  /** Some key, in the mapping's key order, ends name. */
  function AnyKeyEnds(name: string, keys: seq<string>): (r: bool)
    ensures r <==> exists i :: 0 <= i < |keys| && EndsWith(name, keys[i])
  {
    if keys == [] then false
    else if EndsWith(name, keys[0]) then true
    else
      var r := AnyKeyEnds(name, keys[1..]);
      assert forall i :: 1 <= i < |keys| ==> keys[i] == keys[1..][i - 1];
      r
  }

  /** shouldProcessEntry: the file name after the last '/' ends with a key of
      the category mapping. */
  predicate ShouldProcessEntry(entryName: string, keys: seq<string>) {
    AnyKeyEnds(Basename(entryName), keys)
  }

  /** The file name without one trailing ".json". */
  function StripJson(name: string): (r: string)
    ensures EndsWith(name, ".json") ==> r + ".json" == name
    ensures !EndsWith(name, ".json") ==> r == name
  {
    if EndsWith(name, ".json") then name[..|name| - 5] else name
  }

  /** getLogFileName */
  function GetLogFileName(entryName: string, suffix: string): (r: string)
    ensures EndsWith(r, suffix)
    ensures |r| == |StripJson(Basename(entryName))| + |suffix|
    ensures forall i :: 0 <= i < |r| - |suffix| ==> AlarmReport.LogNameChar(r[i])
    ensures forall i :: 0 <= i < |r| - |suffix| ==>
      r[i] == if AlarmReport.LogNameChar(StripJson(Basename(entryName))[i]) then StripJson(Basename(entryName))[i] else '_'
  {
    var stem := Sanitize(StripJson(Basename(entryName)), AlarmReport.LogNameChar);
    assert (stem + suffix)[|stem|..] == suffix;
    stem + suffix
  }

  /** A name that is already a clean log stem comes back with the suffix. */
  lemma LogFileNameOfCleanName(name: string, suffix: string)
    requires '/' !in name && !EndsWith(name, ".json")
    requires forall i :: 0 <= i < |name| ==> AlarmReport.LogNameChar(name[i])
    ensures GetLogFileName(name, suffix) == name + suffix
  {
    var r := GetLogFileName(name, suffix);
    assert |r| == |name| + |suffix|;
    assert r[..|name|] == name;
    assert r[|name|..] == suffix;
    assert r == r[..|name|] + r[|name|..];
  }

  // ---------------------------------------------------------------------------
  // generateAIAnalysis: truncation and the prompt
  // ---------------------------------------------------------------------------

  const TruncationMarker := "\n... (truncated)"

  /** The size cap: -1 means no cap; a longer text keeps its first limit
      characters and gets the marker; a limit below -1 makes substring throw. */
  function Truncate(text: string, limit: int): (r: Option<string>)
    ensures r.Some? <==> limit >= -1
    ensures r.Some? && (limit == -1 || |text| <= limit) ==> r.value == text
    ensures r.Some? && limit >= 0 ==> |r.value| <= limit + |TruncationMarker|
    ensures r.Some? && limit >= 0 && |text| > limit ==> r.value == text[..limit] + TruncationMarker
  {
    if limit != -1 && |text| > limit then
      if limit < 0 then None
      else Some(text[..limit] + TruncationMarker)
    else Some(text)
  }

  /** The historical-data part of the prompt: a missing or malformed limit, or
      a limit below -1, is caught and reported in the prompt itself. */
  function DataSection(dataJson: string, limit: Option<int>): (s: string)
    ensures limit.None? || limit.value < -1 ==> s == "(Error formatting data)\n\n"
    ensures limit == Some(-1) ==> s == dataJson + "\n\n"
    ensures limit.Some? && 0 <= limit.value ==>
      EndsWith(s, "\n\n") && |s| <= limit.value + |TruncationMarker| + 2 &&
      StartsWith(s, dataJson[..if |dataJson| <= limit.value then |dataJson| else limit.value])
    ensures limit.Some? && limit.value >= -1 ==> s == Truncate(dataJson, limit.value).value + "\n\n"
  {
    if limit.None? then "(Error formatting data)\n\n"
    else
      match Truncate(dataJson, limit.value)
      case None => "(Error formatting data)\n\n"
      case Some(t) => t + "\n\n"
  }

  /** The diagnosis part of the prompt; None when a missing, malformed or
      negative limit throws out of generateAIAnalysis. */
  function DiagnosisSection(diagnosis: Option<string>, limit: Option<int>): (r: Option<string>)
    ensures r.None? <==> diagnosis.Some? && (limit.None? || limit.value < -1)
    ensures diagnosis.None? ==> r == Some("")
    ensures diagnosis.Some? && limit.Some? && limit.value >= -1 ==>
      r == Some("DIAGNOSIS DATA:\n" + Truncate(diagnosis.value, limit.value).value + "\n\n")
  {
    if diagnosis.None? then Some("")
    else if limit.None? then None
    else
      match Truncate(diagnosis.value, limit.value)
      case None => None
      case Some(t) => Some("DIAGNOSIS DATA:\n" + t + "\n\n")
  }

  /** A block the prompt carries only for a non-null, non-empty value. */
  function InfoBlock(heading: string, v: Option<string>): string {
    if v.Some? && v.value != "" then heading + v.value + "\n\n" else ""
  }

  const PromptIntro :=
    "You are an expert system administrator and certified eG Innovations Engineer analyzing eG Innovations deployment data.\n\n"

  const AnalysisRequest :=
    "ANALYSIS REQUIRED:\n"
    + "Based on the description, interpretation guide, and historical data provided above, "
    + "analyze whether this KPI is COMPLIANT (healthy) or NON-COMPLIANT (needs attention).\n\n"
    + "Please provide:\n"
    + "1. A clear status: COMPLIANT or NON-COMPLIANT\n"
    + "2. A detailed explanation of why you reached this conclusion\n"
    + "3. Any specific concerns or recommendations if non-compliant\n"
    + "4. Key data points that support your analysis\n"
    + "5. Work within the data provided\n"
    + "6. Clearly decide COMPLIANT or NON-COMPLIANT or NEEDS REVIEW based on the data provided.\n"
    + "7. If historic values are given as - be informed that measurements are not applicable, mark the metrics as NEEDS REVIEW.\n"
    + "8. You are NOT allowed to infer that the KPI or sensor is unhealthy or faulty based solely on lack of variation. You MUST follow the interpretation guide above.\n"
    + "9. If your general knowledge or intuition conflicts with the interpretation guide, you MUST follow the interpretation guide.\n"
    + "10. 0 values for any event log errors, warnings are considered as COMPLIANT\n"
    + "11. non zero values for any event log errors, warnings are considered as NON-COMPLIANT\n"
    + "12. 0 values or near-zero values for any queue is considered as COMPLIANT\n"
    + "\n\n"
    + "Format your response as:\n"
    + "STATUS: [COMPLIANT or NON-COMPLIANT or NEEDS REVIEW]\n\n"
    + "REASON: [Your detailed analysis and justification for your verdict]\n"

  function KpiInformation(r: KpiResult): string {
    "KPI INFORMATION:\n"
    + "Component: " + Str(r.componentName) + "\n"
    + "Component Type: " + Str(r.componentType) + "\n"
    + "Test: " + Str(r.test) + "\n"
    + "Measure: " + Str(r.measure) + "\n"
    + "Timeline: " + Str(r.timeline) + "\n\n"
  }

  /** The prompt sent to the language model. */
  function PromptText(r: KpiResult, dataSection: string, diagnosisSection: string): string {
    PromptIntro + KpiInformation(r)
    + InfoBlock("DESCRIPTION:\n", r.description)
    + InfoBlock("INTERPRETATION GUIDE:\n", r.interpretation)
    + InfoBlock("Measurement Unit: ", r.measurementUnit)
    + "HISTORICAL DATA:\n" + dataSection + diagnosisSection
    + AnalysisRequest
  }

  /** The prompt opens with the fixed introduction and the KPI information
      heading, and closes with the historical data, the diagnosis section and
      the fixed analysis request, in that order. */
  lemma PromptTextFrame(r: KpiResult, dataSection: string, diagnosisSection: string)
    ensures StartsWith(PromptText(r, dataSection, diagnosisSection), PromptIntro + KpiInformation(r))
    ensures EndsWith(PromptText(r, dataSection, diagnosisSection),
                     "HISTORICAL DATA:\n" + dataSection + diagnosisSection + AnalysisRequest)
  {
    var a0 := PromptIntro + KpiInformation(r);
    var a1 := a0 + InfoBlock("DESCRIPTION:\n", r.description);
    var a2 := a1 + InfoBlock("INTERPRETATION GUIDE:\n", r.interpretation);
    var a3 := a2 + InfoBlock("Measurement Unit: ", r.measurementUnit);
    var req := AnalysisRequest;
    assert StartsWith(a0, a0);
    StartsWithAppend(a0, a0, InfoBlock("DESCRIPTION:\n", r.description));
    StartsWithAppend(a1, a0, InfoBlock("INTERPRETATION GUIDE:\n", r.interpretation));
    StartsWithAppend(a2, a0, InfoBlock("Measurement Unit: ", r.measurementUnit));
    var tail := "HISTORICAL DATA:\n" + dataSection + diagnosisSection + req;
    StartsWithAppend(a3, a0, tail);
    Assoc4(a3, "HISTORICAL DATA:\n", dataSection, diagnosisSection, req);
    EndsWithAppended(a3, tail);
  }

  const AiErrorPrefix := "AI analysis unavailable due to error: "

  /** The analysis text of one reply: the model's answer, or the error text for
      an IOException. */
  function ReplyText(reply: AiReply): (t: string)
    ensures reply.IoFailure? ==> StartsWith(t, AiErrorPrefix)
    ensures reply.Reply? ==> t == reply.text
  {
    match reply
    case Reply(text) => text
    case IoFailure(msg) =>
      var t := AiErrorPrefix + Str(msg);
      assert t[..|AiErrorPrefix|] == AiErrorPrefix;
      t
  }

  /** generateAIAnalysis; None when an unchecked exception escapes it. */
  function GenerateAiAnalysis(r: KpiResult, hd: HistoricalDataContent, env: PmEnv): (a: Option<string>)
    ensures a.None? <==> r.diagnosisData.Some? && (env.ddLimit.None? || env.ddLimit.value < -1)
    ensures a.Some? ==> a.value == ReplyText(env.ai(PromptText(r,
      DataSection(env.pretty(hd.data), env.dataLimit), DiagnosisSection(r.diagnosisData, env.ddLimit).value)))
  {
    var dd := DiagnosisSection(r.diagnosisData, env.ddLimit);
    if dd.None? then None
    else
      var p := PromptText(r, DataSection(env.pretty(hd.data), env.dataLimit), dd.value);
      Some(ReplyText(env.ai(p)))
  }

  // ---------------------------------------------------------------------------
  // determineComplianceStatus
  // ---------------------------------------------------------------------------

  datatype Compliance = Compliance(status: string, compliant: bool)

  predicate ExplicitNonCompliant(u: string) {
    Contains(u, "STATUS: NON-COMPLIANT") || Contains(u, "STATUS:NON-COMPLIANT")
  }

  predicate ExplicitCompliant(u: string) {
    Contains(u, "STATUS: COMPLIANT") || Contains(u, "STATUS:COMPLIANT")
  }

  predicate NonCompliantWords(u: string) {
    Contains(u, "NEEDS ATTENTION") || Contains(u, "NON-COMPLIANT") || Contains(u, "NOT COMPLIANT")
  }

  predicate CompliantWords(u: string) {
    Contains(u, "COMPLIANT") || Contains(u, "HEALTHY") || Contains(u, "NORMAL")
  }

  /** determineComplianceStatus, as the pair of values it sets on the result. */
  function ComplianceOf(ai: Option<string>): (c: Compliance)
    ensures c.compliant <==> c.status == "COMPLIANT"
    ensures c.status == "UNKNOWN" <==> ai.None?
    ensures c.status in {"UNKNOWN", "NON-COMPLIANT", "COMPLIANT", "NEEDS REVIEW"}
  {
    if ai.None? then Compliance("UNKNOWN", false)
    else
      var u := ToUpper(ai.value);
      if ExplicitNonCompliant(u) then Compliance("NON-COMPLIANT", false)
      else if ExplicitCompliant(u) then Compliance("COMPLIANT", true)
      else if NonCompliantWords(u) then Compliance("NON-COMPLIANT", false)
      else if CompliantWords(u) then Compliance("COMPLIANT", true)
      else Compliance("NEEDS REVIEW", false)
  }

  /** An explicit status line beats every keyword elsewhere in the text, and an
      explicit NON-COMPLIANT beats an explicit COMPLIANT. */
  lemma ExplicitStatusFirst(t: string)
    ensures ExplicitNonCompliant(ToUpper(t)) ==> ComplianceOf(Some(t)).status == "NON-COMPLIANT"
    ensures !ExplicitNonCompliant(ToUpper(t)) && ExplicitCompliant(ToUpper(t)) ==>
      ComplianceOf(Some(t)).status == "COMPLIANT"
  {
  }

  /** Without an explicit status line, a non-compliant keyword beats a
      compliant one, and only then does a compliant keyword decide. */
  lemma KeywordTiers(t: string)
    ensures !ExplicitNonCompliant(ToUpper(t)) && !ExplicitCompliant(ToUpper(t)) && NonCompliantWords(ToUpper(t)) ==>
      ComplianceOf(Some(t)).status == "NON-COMPLIANT"
    ensures (!ExplicitNonCompliant(ToUpper(t)) && !ExplicitCompliant(ToUpper(t)) &&
             !NonCompliantWords(ToUpper(t)) && CompliantWords(ToUpper(t))) ==>
      ComplianceOf(Some(t)).status == "COMPLIANT"
  {
  }

  lemma ExplicitStatusWords(u: string)
    ensures ExplicitNonCompliant(u) ==> Contains(u, "NON-COMPLIANT")
    ensures ExplicitCompliant(u) ==> Contains(u, "COMPLIANT")
  {
    assert OccursAt("STATUS: NON-COMPLIANT", "NON-COMPLIANT", 8);
    assert OccursAt("STATUS:NON-COMPLIANT", "NON-COMPLIANT", 7);
    assert OccursAt("STATUS: COMPLIANT", "COMPLIANT", 8);
    assert OccursAt("STATUS:COMPLIANT", "COMPLIANT", 7);
    if Contains(u, "STATUS: NON-COMPLIANT") {
      ContainsTrans(u, "STATUS: NON-COMPLIANT", "NON-COMPLIANT");
    } else if Contains(u, "STATUS:NON-COMPLIANT") {
      ContainsTrans(u, "STATUS:NON-COMPLIANT", "NON-COMPLIANT");
    }
    if Contains(u, "STATUS: COMPLIANT") {
      ContainsTrans(u, "STATUS: COMPLIANT", "COMPLIANT");
    } else if Contains(u, "STATUS:COMPLIANT") {
      ContainsTrans(u, "STATUS:COMPLIANT", "COMPLIANT");
    }
  }

  /** A COMPLIANT verdict always rests on one of its keywords in the text, and
      a NON-COMPLIANT verdict on one of its own. */
  lemma VerdictHasEvidence(t: string)
    ensures ComplianceOf(Some(t)).compliant ==> CompliantWords(ToUpper(t))
    ensures ComplianceOf(Some(t)).status == "NON-COMPLIANT" ==> NonCompliantWords(ToUpper(t))
  {
    ExplicitStatusWords(ToUpper(t));
  }

  /** NEEDS REVIEW is given exactly to a text that mentions none of the
      keywords. */
  lemma NeedsReviewIffNoKeyword(t: string)
    ensures ComplianceOf(Some(t)).status == "NEEDS REVIEW" <==>
      !NonCompliantWords(ToUpper(t)) && !CompliantWords(ToUpper(t))
  {
    ExplicitStatusWords(ToUpper(t));
  }

  // ---------------------------------------------------------------------------
  // processZipEntry and processZipFile
  // ---------------------------------------------------------------------------

  datatype EntryOutcome =
    | Produced(result: KpiResult)
    | NoResult   // processZipEntry returned null
    | Thrown     // an exception left processZipEntry

  /** The result before the analysis: the entry's metadata and help, the raw
      data and the diagnosis data rendered as JSON. */
  function BaseResult(name: string, md: MetaData, hd: HistoricalDataContent, help: HelpLookup,
                      render: Json -> string): (r: KpiResult)
    ensures r.entryName == name && r.componentName == md.componentName && r.componentType == md.componentType
    ensures r.test == md.test && r.measure == md.measure && r.timeline == md.timeline
    ensures !help.HelpFound? ==> r.description.None? && r.interpretation.None? && r.measurementUnit.None?
    ensures r.aiAnalysis.None? && r.complianceStatus.None? && !r.compliant
    ensures r.rawData == Some(render(hd.data))
    ensures r.diagnosisData.None? <==> hd.diagnosisData == JNull
    ensures hd.diagnosisData != JNull ==> r.diagnosisData == Some(render(hd.diagnosisData))
    ensures help.HelpFound? ==>
      r.description == GetStringFromMap(Some(help.entry), Some("description")) &&
      r.interpretation == GetStringFromMap(Some(help.entry), Some("interpretation")) &&
      r.measurementUnit == GetStringFromMap(Some(help.entry), Some("measurementunit"))
  {
    var h := if help.HelpFound? then Some(help.entry) else None;
    KpiResult(
      name, md.componentName, md.componentType, md.test, md.measure, md.timeline,
      GetStringFromMap(h, Some("description")),
      GetStringFromMap(h, Some("interpretation")),
      GetStringFromMap(h, Some("measurementunit")),
      false, None, None,
      Some(render(hd.data)),
      if hd.diagnosisData != JNull then Some(render(hd.diagnosisData)) else None)
  }

  /** A result processZipEntry returns: its status is one of the three verdicts
      and agrees with its flag and its analysis. */
  predicate WellJudged(r: KpiResult) {
    r.aiAnalysis.Some? &&
    r.complianceStatus == Some(ComplianceOf(r.aiAnalysis).status) &&
    r.compliant == ComplianceOf(r.aiAnalysis).compliant &&
    r.complianceStatus.value in {"COMPLIANT", "NON-COMPLIANT", "NEEDS REVIEW"}
  }

  /** processZipEntry */
  function ProcessZipEntry(e: PmEntry, env: PmEnv): EntryOutcome {
    match e.content
    case Unreadable => Thrown
    case Unparseable => NoResult
    case Parsed(hdo) =>
      if hdo.None? || hdo.value.metaData.None? then NoResult
      else
        var hd := hdo.value;
        var md := hd.metaData.value;
        var help := GetMeasureHelp(md.test, md.measure, env.help);
        if help.HelpNotFound? then Thrown
        else
          var base := BaseResult(e.name, md, hd, help, env.render);
          match GenerateAiAnalysis(base, hd, env)
          case None => Thrown
          case Some(ai) =>
            var c := ComplianceOf(Some(ai));
            Produced(base.(aiAnalysis := Some(ai), complianceStatus := Some(c.status), compliant := c.compliant))
  }

  /** The entry's metadata, when the file parsed and has it. */
  predicate HasMetaData(e: PmEntry) {
    e.content.Parsed? && e.content.historicalData.Some? && e.content.historicalData.value.metaData.Some?
  }

  /** What processZipEntry gives: null exactly for a file that does not parse
      or lacks historicalData or metaData; a thrown exception for an unknown
      measure; otherwise a result named after the entry, carrying its metadata,
      no help text when there is no help file, and a verdict in agreement with
      its analysis. */
  lemma ProcessZipEntryOutcomes(e: PmEntry, env: PmEnv)
    ensures ProcessZipEntry(e, env).NoResult? <==> (e.content.Unparseable? || (e.content.Parsed? && !HasMetaData(e)))
    ensures HasMetaData(e) ==>
      var md := e.content.historicalData.value.metaData.value;
      GetMeasureHelp(md.test, md.measure, env.help).HelpNotFound? ==> ProcessZipEntry(e, env).Thrown?
    ensures ProcessZipEntry(e, env).Produced? ==> HasMetaData(e)
    ensures ProcessZipEntry(e, env).Produced? ==>
      var r := ProcessZipEntry(e, env).result;
      var md := e.content.historicalData.value.metaData.value;
      r.entryName == e.name && WellJudged(r) &&
      r.test == md.test && r.measure == md.measure && r.componentName == md.componentName &&
      r.componentType == md.componentType && r.timeline == md.timeline &&
      (GetMeasureHelp(md.test, md.measure, env.help).NoHelp? ==>
        r.description.None? && r.interpretation.None? && r.measurementUnit.None?)
  {
  }
  /** An entry processZipFile hands to processZipEntry. */
  predicate Considered(e: PmEntry, keys: seq<string>) {
    !e.isDirectory && ShouldProcessEntry(e.name, keys)
  }

  /** What one entry adds to processZipFile's results. */
  function Contribution(e: PmEntry, env: PmEnv): (r: seq<KpiResult>)
    ensures |r| <= 1
  {
    if Considered(e, env.mappingKeys) && ProcessZipEntry(e, env).Produced?
    then [ProcessZipEntry(e, env).result] else []
  }

  /** The results of processZipFile, in entry order. */
  function ZipResults(entries: seq<PmEntry>, env: PmEnv): (r: seq<KpiResult>)
    ensures |r| <= |entries|
  {
    if entries == [] then []
    else ZipResults(entries[..|entries| - 1], env) + Contribution(entries[|entries| - 1], env)
  }

  /** The entries processZipFile skips for the category mapping. */
  function SkippedCount(entries: seq<PmEntry>, keys: seq<string>): (n: nat)
    ensures n <= |entries|
  {
    if entries == [] then 0
    else
      var e := entries[|entries| - 1];
      SkippedCount(entries[..|entries| - 1], keys) +
        (if !e.isDirectory && !ShouldProcessEntry(e.name, keys) then 1 else 0)
  }

  function FileCount(entries: seq<PmEntry>): (n: nat)
    ensures n <= |entries|
  {
    if entries == [] then 0
    else FileCount(entries[..|entries| - 1]) + (if entries[|entries| - 1].isDirectory then 0 else 1)
  }

  /** processZipFile */
  method ProcessZipFile(entries: seq<PmEntry>, env: PmEnv)
    returns (results: seq<KpiResult>, processedCount: nat, skippedCount: nat)
    ensures results == ZipResults(entries, env)
    ensures processedCount == |results|
    ensures skippedCount == SkippedCount(entries, env.mappingKeys)
  {
    results, processedCount, skippedCount := [], 0, 0;
    var i := 0;
    while i < |entries|
      invariant 0 <= i <= |entries|
      invariant results == ZipResults(entries[..i], env)
      invariant processedCount == |results|
      invariant skippedCount == SkippedCount(entries[..i], env.mappingKeys)
    {
      var e := entries[i];
      ZipFileStep(entries, i, env);
      if e.isDirectory {
        i := i + 1;
        continue;
      }
      if !ShouldProcessEntry(e.name, env.mappingKeys) {
        skippedCount := skippedCount + 1;
        i := i + 1;
        continue;
      }
      var outcome := ProcessZipEntry(e, env);
      if outcome.Produced? {
        results := results + [outcome.result];
        processedCount := processedCount + 1;
      }
      i := i + 1;
    }
    assert entries[..i] == entries;
  }

  /** One more entry adds its contribution and, when it is skipped, one to the
      skipped count. */
  lemma ZipFileStep(entries: seq<PmEntry>, i: int, env: PmEnv)
    requires 0 <= i < |entries|
    ensures ZipResults(entries[..i + 1], env) == ZipResults(entries[..i], env) + Contribution(entries[i], env)
    ensures SkippedCount(entries[..i + 1], env.mappingKeys) == SkippedCount(entries[..i], env.mappingKeys) +
      (if !entries[i].isDirectory && !ShouldProcessEntry(entries[i].name, env.mappingKeys) then 1 else 0)
  {
    PrefixSnoc(entries, i);
  }

  /** Results keep the order of the entries they come from. */
  lemma {:induction false} ZipResultsAppend(a: seq<PmEntry>, b: seq<PmEntry>, env: PmEnv)
    ensures ZipResults(a + b, env) == ZipResults(a, env) + ZipResults(b, env)
  {
    if b == [] {
      AppendEmpty(a);
    } else {
      var init, last := b[..|b| - 1], b[|b| - 1];
      AppendInit(a, b);
      ZipResultsAppend(a, init, env);
      assert ZipResults(a + b, env) == ZipResults(a + init, env) + Contribution(last, env);
      ConcatAssoc(ZipResults(a, env), ZipResults(init, env), Contribution(last, env));
    }
  }

  /** Some considered entry of r's name made processZipEntry produce r. */
  predicate ProducedBy(entries: seq<PmEntry>, env: PmEnv, r: KpiResult) {
    exists i :: 0 <= i < |entries| && Considered(entries[i], env.mappingKeys) &&
      ProcessZipEntry(entries[i], env) == Produced(r) && entries[i].name == r.entryName
  }

  /** Every result comes from a considered entry of the same name for which
      processZipEntry produced it. */
  lemma {:induction false} ZipResultsFromEntries(entries: seq<PmEntry>, env: PmEnv)
    ensures forall k :: 0 <= k < |ZipResults(entries, env)| ==> ProducedBy(entries, env, ZipResults(entries, env)[k])
  {
    if entries != [] {
      var n := |entries| - 1;
      ZipResultsFromEntries(entries[..n], env);
      var prev := ZipResults(entries[..n], env);
      var c := Contribution(entries[n], env);
      var all := ZipResults(entries, env);
      assert all == prev + c;
      forall k | 0 <= k < |all|
        ensures ProducedBy(entries, env, all[k])
      {
        if k < |prev| {
          assert all[k] == prev[k];
          assert ProducedBy(entries[..n], env, prev[k]);
          var i :| 0 <= i < n && Considered(entries[..n][i], env.mappingKeys) &&
            ProcessZipEntry(entries[..n][i], env) == Produced(prev[k]) && entries[..n][i].name == prev[k].entryName;
          assert entries[..n][i] == entries[i];
        } else {
          assert all[k] == c[0];
          ProcessZipEntryOutcomes(entries[n], env);
          assert Considered(entries[n], env.mappingKeys) && ProcessZipEntry(entries[n], env) == Produced(all[k]);
        }
      }
    }
  }

  /** Every result of processZipFile carries one of the three verdicts, in
      agreement with its compliant flag. */
  lemma {:induction false} ZipResultsWellJudged(entries: seq<PmEntry>, env: PmEnv)
    ensures forall k :: 0 <= k < |ZipResults(entries, env)| ==> WellJudged(ZipResults(entries, env)[k])
  {
    if entries != [] {
      var n := |entries| - 1;
      ZipResultsWellJudged(entries[..n], env);
      var prev := ZipResults(entries[..n], env);
      var c := Contribution(entries[n], env);
      assert ZipResults(entries, env) == prev + c;
      if c != [] {
        ProcessZipEntryOutcomes(entries[n], env);
        assert WellJudged(c[0]);
      }
    }
  }

  /** The processed and skipped counts together never exceed the number of
      file entries. */
  lemma {:induction false} CountsWithinFiles(entries: seq<PmEntry>, env: PmEnv)
    ensures |ZipResults(entries, env)| + SkippedCount(entries, env.mappingKeys) <= FileCount(entries)
  {
    if entries != [] {
      CountsWithinFiles(entries[..|entries| - 1], env);
    }
  }
}
