/** The HTML alarm report: reading the bundles of an alarm_analysis archive into
    report cards, resolving each card's interpretation from the eG help files,
    ordering the cards by priority, and the escaping and prompt helpers. */
module AlarmReport {
  import opened Wrappers
  import opened Text
  import opened Json
  import opened ReportModel
  import opened Seqs

  /** A help file on the class path, by its path "eghelp/<name>.json". */
  datatype Resource = Missing | Unreadable(message: Option<string>) | Loaded(doc: Json)

  /** What the report reads from outside: the help files, Jackson's toString of
      a node, the AI analysis HTML produced for an entry, and the message of an
      exception the JVM raises (a null dereference or a failed cast). */
  datatype Env = Env(
    help: string -> Resource,
    render: Json -> string,
    analysis: string -> string,
    jvmMessage: Option<string>)

  // ---------------------------------------------------------------------------
  // Field extraction
  // ---------------------------------------------------------------------------

  /** The outcome of extractedJsonNode: a node, Java null, or a thrown
      MeasureHelpNotFoundException with its message. */
  datatype Extracted = Hit(node: Json) | NoNode | Thrown(message: string)

  /** The spellings extractedJsonNode tries, in order. */
  function Spellings(key: string): seq<string> {
    [key, ToLower(key), ToUpper(key)]
  }

  /** The first of key, its lower-case and its upper-case spelling that the
      node has; when none is present, null for troubleshootingSteps (in any case)
      and an exception naming the key for every other key. */
  function ExtractedJsonNode(m: Json, key: string, render: Json -> string): (r: Extracted)
    ensures r.Thrown? ==> r.message == "No '" + key + "' field found in measurement: " + render(m)
  {
    var s := Spellings(key);
    if Get(m, s[0]).Some? then Hit(Get(m, s[0]).value)
    else if Get(m, s[1]).Some? then Hit(Get(m, s[1]).value)
    else if Get(m, s[2]).Some? then Hit(Get(m, s[2]).value)
    else if !EqualsIgnoreCase(key, "troubleshootingSteps") then
      Thrown("No '" + key + "' field found in measurement: " + render(m))
    else NoNode
  }

  /** A hit is the first spelling present; a miss is null exactly for
      troubleshootingSteps (in any case) and an exception for every other key. */
  lemma ExtractedJsonNodeSpec(m: Json, key: string, render: Json -> string)
    ensures var r := ExtractedJsonNode(m, key, render);
      r.Hit? ==>
        exists k :: 0 <= k < 3 && Get(m, Spellings(key)[k]) == Some(r.node) &&
          forall j :: 0 <= j < k ==> Get(m, Spellings(key)[j]).None?
    ensures var r := ExtractedJsonNode(m, key, render);
      !r.Hit? <==> forall k :: 0 <= k < 3 ==> Get(m, Spellings(key)[k]).None?
    ensures var r := ExtractedJsonNode(m, key, render);
      r.NoNode? <==> ((forall k :: 0 <= k < 3 ==> Get(m, Spellings(key)[k]).None?) &&
        EqualsIgnoreCase(key, "troubleshootingSteps"))
    ensures var r := ExtractedJsonNode(m, key, render);
      r.Thrown? <==> ((forall k :: 0 <= k < 3 ==> Get(m, Spellings(key)[k]).None?) &&
        !EqualsIgnoreCase(key, "troubleshootingSteps"))
  {
    var s := Spellings(key);
    if Get(m, s[0]).None? && Get(m, s[1]).None? && Get(m, s[2]).Some? {
      assert forall j :: 0 <= j < 2 ==> Get(m, s[j]).None?;
    }
  }

  /** The unit node of populateInterpretation: MeasurementUnit, then unit, then
      measurementUnit; only the last failure escapes. */
  function ReportUnit(m: Json, render: Json -> string): (r: Extracted)
    ensures !r.NoNode?
    ensures r.Thrown? ==> r == ExtractedJsonNode(m, "measurementUnit", render)
  {
    var a := ExtractedJsonNode(m, "MeasurementUnit", render);
    if !a.Thrown? then a
    else
      var b := ExtractedJsonNode(m, "unit", render);
      if !b.Thrown? then b else ExtractedJsonNode(m, "measurementUnit", render)
  }

  /** The unit node of the prompt variant: MeasurementUnit, then measurementUnit,
      then Unit. */
  function PromptUnit(m: Json, render: Json -> string): (r: Extracted)
    ensures !r.NoNode?
    ensures r.Thrown? ==> r == ExtractedJsonNode(m, "Unit", render)
  {
    var a := ExtractedJsonNode(m, "MeasurementUnit", render);
    if !a.Thrown? then a
    else
      var b := ExtractedJsonNode(m, "measurementUnit", render);
      if !b.Thrown? then b else ExtractedJsonNode(m, "Unit", render)
  }

  /** The two fallback orders disagree on an entry that has no MeasurementUnit
      in any spelling but has both "unit" and "measurementUnit": the report card
      takes "unit", the prompt takes "measurementUnit". */
  lemma UnitFallbackOrders(m: Json, render: Json -> string, u: Json, mu: Json)
    requires forall k :: 0 <= k < 3 ==> Get(m, Spellings("MeasurementUnit")[k]).None?
    requires Get(m, "unit") == Some(u)
    requires Get(m, "measurementUnit") == Some(mu)
    ensures ReportUnit(m, render) == Hit(u)
    ensures PromptUnit(m, render) == Hit(mu)
  {
    assert Spellings("unit")[0] == "unit";
    assert Spellings("measurementUnit")[0] == "measurementUnit";
  }

  // ---------------------------------------------------------------------------
  // Scanning a help file
  // ---------------------------------------------------------------------------

  /** The measure test: equalsIgnoreCase on the card side, equals on the prompt
      side; neither trims. */
  predicate MeasureMatches(text: string, measure: string, exact: bool) {
    if exact then text == measure else EqualsIgnoreCase(text, measure)
  }

  /** extractedJsonNode(entry, "Measurement"): a node or an exception, never null. */
  function MeasurementOf(m: Json, render: Json -> string): (r: Extracted)
    ensures !r.NoNode?
  {
    assert !EqualsIgnoreCase("Measurement", "troubleshootingSteps");
    ExtractedJsonNode(m, "Measurement", render)
  }

  /** The entry has a Measurement and it is not the measure: the scan goes on. */
  predicate Passes(m: Json, measure: string, exact: bool, render: Json -> string) {
    var e := MeasurementOf(m, render);
    e.Hit? && !MeasureMatches(AsText(e.node), measure, exact)
  }

  /** The entry has a Measurement and it is the measure: the scan stops here. */
  predicate Selects(m: Json, measure: string, exact: bool, render: Json -> string) {
    var e := MeasurementOf(m, render);
    e.Hit? && MeasureMatches(AsText(e.node), measure, exact)
  }

  datatype Scan = Match(measurement: Json) | NoMatch | ScanError(message: string)

  /** The test that ends the scan at an entry. */
  function StopTest(measure: string, exact: bool, render: Json -> string): Json -> bool {
    m => !Passes(m, measure, exact, render)
  }

  /** Where the for-loop over the help entries stops: the first entry that has
      no Measurement or whose Measurement matches, or the end. */
  function FirstStop(ms: seq<Json>, measure: string, exact: bool, render: Json -> string): (i: nat)
    ensures i <= |ms|
  {
    FirstFrom(ms, StopTest(measure, exact, render), 0)
  }

  /** Every entry before the stop passes and the entry at the stop does not. */
  lemma FirstStopSpec(ms: seq<Json>, measure: string, exact: bool, render: Json -> string)
    ensures var i := FirstStop(ms, measure, exact, render);
      (forall k :: 0 <= k < i ==> Passes(ms[k], measure, exact, render)) &&
      (i < |ms| ==> !Passes(ms[i], measure, exact, render))
  {
    FirstFromSpec(ms, StopTest(measure, exact, render), 0);
  }

  /** The outcome of the loop: the first entry whose Measurement matches, or
      the exception of the first entry without one, whichever comes first. */
  function ScanHelp(ms: seq<Json>, measure: string, exact: bool, render: Json -> string): (r: Scan)
    ensures r.Match? ==>
      exists i :: 0 <= i < |ms| && ms[i] == r.measurement && Selects(ms[i], measure, exact, render) &&
        forall k :: 0 <= k < i ==> Passes(ms[k], measure, exact, render)
    ensures r.NoMatch? <==> forall k :: 0 <= k < |ms| ==> Passes(ms[k], measure, exact, render)
    ensures r.ScanError? ==>
      exists i :: 0 <= i < |ms| && MeasurementOf(ms[i], render) == Thrown(r.message) &&
        forall k :: 0 <= k < i ==> Passes(ms[k], measure, exact, render)
  {
    var i := FirstStop(ms, measure, exact, render);
    FirstStopSpec(ms, measure, exact, render);
    if i == |ms| then NoMatch
    else
      var e := MeasurementOf(ms[i], render);
      if e.Thrown? then ScanError(e.message) else Match(ms[i])
  }

  // ---------------------------------------------------------------------------
  // populateInterpretation
  // ---------------------------------------------------------------------------

  function ReadError(message: string): string {
    "Error reading interpretation data: " + message
  }

  const NoInterpretation: string := "No specific interpretation found for this measure."

  /** test.replaceAll("/", "") */
  function HelpFileName(test: string): (r: string)
    ensures '/' !in r
    ensures '/' !in test ==> r == test
  {
    var f := x => if x == '/' then "" else [x];
    ExpandAvoids(test, f, '/');
    assert '/' !in test ==> Expand(test, f) == test by {
      if '/' !in test {
        ExpandIdentity(test, f);
      }
    }
    Replace(test, '/', "")
  }

  /** Removing the slashes works piece by piece, and a slash alone vanishes:
      with the clause above, this fixes the name of every test. */
  lemma HelpFileNameAppend(a: string, b: string)
    ensures HelpFileName(a + b) == HelpFileName(a) + HelpFileName(b)
    ensures HelpFileName("/") == ""
  {
    var f := x => if x == '/' then "" else [x];
    ExpandAppend(a, b, f);
    ExpandSingle('/', f);
  }

  function HelpPath(name: string): string {
    "eghelp/" + name + ".json"
  }

  /** The matching branch: interpretation "found" first, then description, unit
      and text in turn; an exception part-way keeps what was already set and
      overwrites the interpretation with the error text. */
  function FoundView(v: AlarmView, m: Json, render: Json -> string): (r: AlarmView)
  {
    var v1 := v.(interpretation := Some("found"));
    var d := ExtractedJsonNode(m, "Description", render);
    if d.Thrown? then v1.(interpretation := Some(ReadError(d.message)))
    else
      var v2 := v1.(interpretationDescription := Some(AsText(d.node)));
      var u := ReportUnit(m, render);
      if u.Thrown? then v2.(interpretation := Some(ReadError(u.message)))
      else
        var v3 := v2.(interpretationUnit := Some(AsText(u.node)));
        var t := ExtractedJsonNode(m, "Interpretation", render);
        if t.Thrown? then v3.(interpretation := Some(ReadError(t.message)))
        else v3.(interpretationText := Some(AsText(t.node)))
  }

  /** The card after populateInterpretation(card, test, measure). */
  function Interpreted(v: AlarmView, test: string, measure: string, env: Env): AlarmView {
    var name := HelpFileName(test);
    match env.help(HelpPath(name))
    case Missing => v.(interpretation := Some(ReadError("No help file found for test: " + name)))
    case Unreadable(msg) => v.(interpretation := Some(ReadError(Str(msg))))
    case Loaded(doc) =>
      match ScanHelp(Elements(doc), measure, false, env.render)
      case Match(m) => FoundView(v, m, env.render)
      case NoMatch => v.(interpretation := Some(NoInterpretation))
      case ScanError(msg) => v.(interpretation := Some(ReadError(msg)))
  }

  /** Whatever the help file holds, populateInterpretation never fails: it sets
      an interpretation that is "found", the not-found text or an error text; a
      "found" card has its description, unit and text; and no field outside the
      four interpretation fields changes. */
  lemma InterpretationOutcomes(v: AlarmView, test: string, measure: string, env: Env)
    ensures var r := Interpreted(v, test, measure, env);
      r.(interpretation := v.interpretation, interpretationDescription := v.interpretationDescription,
         interpretationUnit := v.interpretationUnit, interpretationText := v.interpretationText) == v
    ensures var r := Interpreted(v, test, measure, env);
      r.interpretation == Some("found") || r.interpretation == Some(NoInterpretation) ||
      exists msg :: r.interpretation == Some(ReadError(msg))
    ensures var r := Interpreted(v, test, measure, env);
      r.interpretation == Some("found") ==>
        r.interpretationDescription.Some? && r.interpretationUnit.Some? && r.interpretationText.Some?
    ensures env.help(HelpPath(HelpFileName(test))).Missing? ==>
      Interpreted(v, test, measure, env).interpretation ==
        Some(ReadError("No help file found for test: " + HelpFileName(test)))
  {
    var r := Interpreted(v, test, measure, env);
    var name := HelpFileName(test);
    if env.help(HelpPath(name)).Loaded? {
      var s := ScanHelp(Elements(env.help(HelpPath(name)).doc), measure, false, env.render);
      if s.Match? {
        var m := s.measurement;
        var d := ExtractedJsonNode(m, "Description", env.render);
        var u := ReportUnit(m, env.render);
        var t := ExtractedJsonNode(m, "Interpretation", env.render);
        if d.Thrown? {
          assert r.interpretation == Some(ReadError(d.message));
        } else if u.Thrown? {
          assert r.interpretation == Some(ReadError(u.message));
        } else if t.Thrown? {
          assert r.interpretation == Some(ReadError(t.message));
        }
      }
    }
  }

  /** populateInterpretation: the loop over the help entries returns at the
      first match; every exception ends in the error text. */
  method PopulateInterpretation(report: AlarmReportData, test: string, measure: string, env: Env)
    modifies report
    ensures report.View() == Interpreted(old(report.View()), test, measure, env)
  {
    var name := HelpFileName(test);
    var resource := env.help(HelpPath(name));
    if resource.Missing? {
      report.SetInterpretation(Some(ReadError("No help file found for test: " + name)));
      return;
    }
    if resource.Unreadable? {
      report.SetInterpretation(Some(ReadError(Str(resource.message))));
      return;
    }
    var ms := Elements(resource.doc);
    var i := ScanEntries(ms, measure, env.render);
    if i == |ms| {
      assert ScanHelp(ms, measure, false, env.render) == NoMatch;
      report.SetInterpretation(Some(NoInterpretation));
      return;
    }
    var e := MeasurementOf(ms[i], env.render);
    if e.Thrown? {
      assert ScanHelp(ms, measure, false, env.render) == ScanError(e.message);
      report.SetInterpretation(Some(ReadError(e.message)));
    } else {
      assert ScanHelp(ms, measure, false, env.render) == Match(ms[i]);
      ApplyFound(report, ms[i], env.render);
    }
  }

  /** The for-loop of populateInterpretation up to its exit: the position of
      the first entry without a Measurement or with a matching one. */
  method ScanEntries(ms: seq<Json>, measure: string, render: Json -> string) returns (i: nat)
    ensures i == FirstStop(ms, measure, false, render)
  {
    i := 0;
    while i < |ms| && Passes(ms[i], measure, false, render)
      invariant 0 <= i <= |ms|
      invariant forall k :: 0 <= k < i ==> Passes(ms[k], measure, false, render)
    {
      i := i + 1;
    }
    FirstStopAt(ms, i, measure, false, render);
  }

  /** The loop's exit position is the one FirstStop names. */
  lemma FirstStopAt(ms: seq<Json>, i: nat, measure: string, exact: bool, render: Json -> string)
    requires i <= |ms|
    requires forall k :: 0 <= k < i ==> Passes(ms[k], measure, exact, render)
    requires i < |ms| ==> !Passes(ms[i], measure, exact, render)
    ensures FirstStop(ms, measure, exact, render) == i
  {
    FirstStopSpec(ms, measure, exact, render);
  }

  /** The matching branch of populateInterpretation, setter by setter. */
  method ApplyFound(report: AlarmReportData, m: Json, render: Json -> string)
    modifies report
    ensures report.View() == FoundView(old(report.View()), m, render)
  {
    report.SetInterpretation(Some("found"));
    var d := ExtractedJsonNode(m, "Description", render);
    if d.Thrown? {
      report.SetInterpretation(Some(ReadError(d.message)));
      return;
    }
    report.SetInterpretationDescription(Some(AsText(d.node)));
    var u := ReportUnit(m, render);
    if u.Thrown? {
      report.SetInterpretation(Some(ReadError(u.message)));
      return;
    }
    report.SetInterpretationUnit(Some(AsText(u.node)));
    var t := ExtractedJsonNode(m, "Interpretation", render);
    if t.Thrown? {
      report.SetInterpretation(Some(ReadError(t.message)));
      return;
    }
    report.SetInterpretationText(Some(AsText(t.node)));
  }

  // ---------------------------------------------------------------------------
  // getInterpretationStringFromResources
  // ---------------------------------------------------------------------------

  const NoStepsText: string := "Not enough information available."

  function StepTexts(items: seq<Json>): (r: seq<string>)
    ensures |r| == |items|
    ensures forall i :: 0 <= i < |items| ==> r[i] == AsText(items[i])
  {
    seq(|items|, i requires 0 <= i < |items| => AsText(items[i]))
  }

  /** The interpretation text of a matched entry for the AI prompt. */
  function PromptText(m: Json, env: Env): string {
    var d := ExtractedJsonNode(m, "Description", env.render);
    var t := ExtractedJsonNode(m, "Interpretation", env.render);
    var s := ExtractedJsonNode(m, "troubleshootingSteps", env.render);
    var u := PromptUnit(m, env.render);
    if d.Thrown? then ReadError(d.message)
    else if t.Thrown? then ReadError(t.message)
    else if u.Thrown? then ReadError(u.message)
    else if s.Hit? && !s.node.JArray? then ReadError(Str(env.jvmMessage))
    else
      var steps := if s.Hit? then Join(StepTexts(s.node.items), ".\r\n\t* ") else NoStepsText;
      "Description: " + AsText(d.node) + ". \r\nUnit: " + AsText(u.node) +
      ". \r\nInterpretation: " + AsText(t.node) + ". \r\nTroubleshooting Steps: \r\n\t* " + steps
  }

  /** getInterpretationStringFromResources(test, measure): the help file is
      looked up under the test name as given, and the measure must match exactly. */
  function InterpretationForPrompt(test: string, measure: string, env: Env): string {
    match env.help(HelpPath(test))
    case Missing => "No interpretation data available for this test."
    case Unreadable(msg) => ReadError(Str(msg))
    case Loaded(doc) =>
      match ScanHelp(Elements(doc), measure, true, env.render)
      case Match(m) => PromptText(m, env)
      case NoMatch => NoInterpretation
      case ScanError(msg) => ReadError(msg)
  }

  /** The prompt carries the entry's description exactly when description,
      interpretation and unit could all be read and the steps, if present, are
      a list; otherwise it is an error text. */
  lemma PromptTextReadsAll(m: Json, env: Env)
    ensures var d := ExtractedJsonNode(m, "Description", env.render);
      var t := ExtractedJsonNode(m, "Interpretation", env.render);
      var s := ExtractedJsonNode(m, "troubleshootingSteps", env.render);
      var u := PromptUnit(m, env.render);
      (StartsWith(PromptText(m, env), "Description: ") <==>
        !d.Thrown? && !t.Thrown? && !u.Thrown? && !(s.Hit? && !s.node.JArray?)) &&
      (!StartsWith(PromptText(m, env), "Description: ") ==>
        StartsWith(PromptText(m, env), "Error reading interpretation data: "))
  {
    var p := PromptText(m, env);
    var e := "Error reading interpretation data: ";
    if StartsWith(p, e) {
      assert p[0] == e[0] == 'E';
      assert "Description: "[0] == 'D';
    } else {
      assert StartsWith(p, "Description: ");
    }
  }

  /** The prompt lookup reads the help file named after the test as given and
      stops at the first entry whose Measurement equals the measure exactly,
      when every entry before it has a non-matching Measurement. */
  lemma InterpretationForPromptFinds(test: string, measure: string, env: Env, i: nat)
    requires env.help(HelpPath(test)).Loaded?
    requires i < |Elements(env.help(HelpPath(test)).doc)|
    requires Selects(Elements(env.help(HelpPath(test)).doc)[i], measure, true, env.render)
    requires forall k :: 0 <= k < i ==> Passes(Elements(env.help(HelpPath(test)).doc)[k], measure, true, env.render)
    ensures InterpretationForPrompt(test, measure, env) == PromptText(Elements(env.help(HelpPath(test)).doc)[i], env)
  {
    var ms := Elements(env.help(HelpPath(test)).doc);
    FirstStopAt(ms, i, measure, true, env.render);
  }

  /** A matched entry without troubleshooting steps in any spelling, whose other
      fields are present, ends with the default step text. */
  lemma PromptStepsDefault(m: Json, env: Env)
    requires ExtractedJsonNode(m, "Description", env.render).Hit?
    requires ExtractedJsonNode(m, "Interpretation", env.render).Hit?
    requires PromptUnit(m, env.render).Hit?
    requires forall k :: 0 <= k < 3 ==> Get(m, Spellings("troubleshootingSteps")[k]).None?
    ensures EndsWith(PromptText(m, env), NoStepsText)
  {
    var s := ExtractedJsonNode(m, "troubleshootingSteps", env.render);
    assert s.NoNode?;
    var d := ExtractedJsonNode(m, "Description", env.render);
    var t := ExtractedJsonNode(m, "Interpretation", env.render);
    var u := PromptUnit(m, env.render);
    var head := "Description: " + AsText(d.node) + ". \r\nUnit: " + AsText(u.node) +
      ". \r\nInterpretation: " + AsText(t.node) + ". \r\nTroubleshooting Steps: \r\n\t* ";
    assert PromptText(m, env) == head + NoStepsText;
    assert (head + NoStepsText)[|head|..] == NoStepsText;
  }

  // ---------------------------------------------------------------------------
  // Priority order
  // ---------------------------------------------------------------------------

  /** The comparator's key: the lower-cased priority looked up in the priority
      table, 999 for anything else and for a null priority. */
  function Rank(priority: Option<string>): (r: int)
    ensures r in {1, 2, 3, 4, 999}
    ensures r == 1 <==> priority.Some? && ToLower(priority.value) == "critical"
    ensures r == 2 <==> priority.Some? && ToLower(priority.value) == "major"
    ensures r == 3 <==> priority.Some? && ToLower(priority.value) == "minor"
    ensures r == 4 <==> priority.Some? && ToLower(priority.value) == "warning"
  {
    var p := if priority.Some? then ToLower(priority.value) else "unknown";
    if p == "critical" then 1
    else if p == "major" then 2
    else if p == "minor" then 3
    else if p == "warning" then 4
    else 999
  }

  /** The sort order and the badge colour read the same table: critical cards
      are red, minor ones eG yellow, major and warning ones orange, and all
      others, first to last, grey. */
  lemma RankMatchesBadge(p: Option<string>)
    ensures Rank(p) == 1 <==> Badge(p) == "danger"
    ensures Rank(p) == 3 <==> Badge(p) == "eg-minor"
    ensures Rank(p) in {2, 4} <==> Badge(p) == "warning"
    ensures Rank(p) == 999 <==> Badge(p) == "secondary"
  {
  }

  function RankOf(v: AlarmView): int {
    Rank(v.priority)
  }

  predicate SortedBy<T>(s: seq<T>, key: T -> int) {
    forall i, j :: 0 <= i < j < |s| ==> key(s[i]) <= key(s[j])
  }

  /** x placed after every element whose key is at most its own. */
  function InsertBy<T>(x: T, s: seq<T>, key: T -> int): (r: seq<T>)
    ensures multiset(r) == multiset(s) + multiset{x}
    ensures forall i :: 0 <= i < |r| ==> r[i] == x || r[i] in s
  {
    if s == [] then [x]
    else if key(s[0]) <= key(x) then
      assert s == [s[0]] + s[1..];
      [s[0]] + InsertBy(x, s[1..], key)
    else
      [x] + s
  }

  lemma {:induction false} InsertSorted<T>(x: T, s: seq<T>, key: T -> int)
    requires SortedBy(s, key)
    ensures SortedBy(InsertBy(x, s, key), key)
  {
    if s != [] && key(s[0]) <= key(x) {
      var t := InsertBy(x, s[1..], key);
      InsertSorted(x, s[1..], key);
      assert forall i :: 0 <= i < |t| ==> key(s[0]) <= key(t[i]);
    }
  }

  /** An insertion sort on the last element: a stable sort by key. */
  function SortBy<T>(s: seq<T>, key: T -> int): (r: seq<T>)
    ensures multiset(r) == multiset(s)
  {
    if s == [] then []
    else
      assert s == s[..|s| - 1] + [s[|s| - 1]];
      InsertBy(s[|s| - 1], SortBy(s[..|s| - 1], key), key)
  }

  lemma {:induction false} SortBySorted<T>(s: seq<T>, key: T -> int)
    ensures SortedBy(SortBy(s, key), key)
  {
    if s != [] {
      SortBySorted(s[..|s| - 1], key);
      InsertSorted(s[|s| - 1], SortBy(s[..|s| - 1], key), key);
    }
  }

  /** The elements with key k, in order. */
  function WithKey<T>(s: seq<T>, key: T -> int, k: int): seq<T> {
    if s == [] then [] else (if key(s[0]) == k then [s[0]] else []) + WithKey(s[1..], key, k)
  }

  lemma {:induction false} WithKeyAppend<T>(a: seq<T>, b: seq<T>, key: T -> int, k: int)
    ensures WithKey(a + b, key, k) == WithKey(a, key, k) + WithKey(b, key, k)
  {
    if a != [] {
      assert (a + b)[1..] == a[1..] + b;
      WithKeyAppend(a[1..], b, key, k);
    } else {
      assert a + b == b;
    }
  }

  lemma {:induction false} WithKeyAbove<T>(s: seq<T>, key: T -> int, k: int)
    requires forall i :: 0 <= i < |s| ==> key(s[i]) > k
    ensures WithKey(s, key, k) == []
  {
    if s != [] {
      WithKeyAbove(s[1..], key, k);
    }
  }

  lemma {:induction false} InsertStable<T>(x: T, s: seq<T>, key: T -> int, k: int)
    requires SortedBy(s, key)
    ensures WithKey(InsertBy(x, s, key), key, k) == WithKey(s, key, k) + (if key(x) == k then [x] else [])
  {
    if s == [] {
      assert [x][1..] == [];
    } else if key(s[0]) <= key(x) {
      InsertStable(x, s[1..], key, k);
      InsertStablePast(x, s, key, k);
    } else {
      InsertStableFront(x, s, key, k);
    }
  }

  /** The step where x moves past the first element. */
  lemma InsertStablePast<T>(x: T, s: seq<T>, key: T -> int, k: int)
    requires s != [] && key(s[0]) <= key(x)
    requires WithKey(InsertBy(x, s[1..], key), key, k) == WithKey(s[1..], key, k) + (if key(x) == k then [x] else [])
    ensures WithKey(InsertBy(x, s, key), key, k) == WithKey(s, key, k) + (if key(x) == k then [x] else [])
  {
    var t := InsertBy(x, s[1..], key);
    var head := if key(s[0]) == k then [s[0]] else [];
    var tail := if key(x) == k then [x] else [];
    assert InsertBy(x, s, key) == [s[0]] + t;
    WithKeyCons(s[0], t, key, k);
    WithKeyCons(s[0], s[1..], key, k);
    assert s == [s[0]] + s[1..];
    ConcatAssoc(head, WithKey(s[1..], key, k), tail);
  }


  lemma WithKeyCons<T>(a: T, t: seq<T>, key: T -> int, k: int)
    ensures WithKey([a] + t, key, k) == (if key(a) == k then [a] else []) + WithKey(t, key, k)
  {
    assert ([a] + t)[1..] == t;
  }

  /** The step where x goes in front: everything after it has a larger key. */
  lemma InsertStableFront<T>(x: T, s: seq<T>, key: T -> int, k: int)
    requires SortedBy(s, key)
    requires s != [] && key(s[0]) > key(x)
    ensures WithKey(InsertBy(x, s, key), key, k) == WithKey(s, key, k) + (if key(x) == k then [x] else [])
  {
    assert InsertBy(x, s, key) == [x] + s;
    assert ([x] + s)[1..] == s;
    if key(x) == k {
      WithKeyAbove(s, key, k);
    }
  }

  /** Stability: among elements of equal key the sorted order is the original. */
  lemma {:induction false} SortByStable<T>(s: seq<T>, key: T -> int, k: int)
    ensures WithKey(SortBy(s, key), key, k) == WithKey(s, key, k)
  {
    if s != [] {
      var p, x := s[..|s| - 1], s[|s| - 1];
      var sp := SortBy(p, key);
      var tail := if key(x) == k then [x] else [];
      assert SortBy(s, key) == InsertBy(x, sp, key);
      SortByStable(p, key, k);
      SortBySorted(p, key);
      InsertStable(x, sp, key, k);
      assert WithKey(SortBy(s, key), key, k) == WithKey(p, key, k) + tail;
      SplitLast(s);
      WithKeyAppend(p, [x], key, k);
      WithKeySingle(x, key, k);
      assert WithKey(s, key, k) == WithKey(p, key, k) + tail;
    }
  }

  /** One more entry of the archive: the count and the cards grow by that
      entry's share. */
  lemma CardsStep(items: seq<ZipItem>, i: int, env: Env)
    requires 0 <= i < |items|
    ensures |AlarmEntries(items[..i + 1])| == |AlarmEntries(items[..i])| + (if IsAlarmEntry(items[i]) then 1 else 0)
    ensures Cards(items[..i + 1], env) == Cards(items[..i], env) +
      (if IsAlarmEntry(items[i]) && EntryCard(items[i], env).Some? then [EntryCard(items[i], env).value] else [])
  {
    var s := items[..i + 1];
    assert s[..|s| - 1] == items[..i];
    assert s[|s| - 1] == items[i];
  }


  lemma WithKeySingle<T>(x: T, key: T -> int, k: int)
    ensures WithKey([x], key, k) == if key(x) == k then [x] else []
  {
    assert [x][1..] == [];
  }

  /** List.sort with the priority comparator: ranks non-decreasing, the same
      cards, and cards of equal rank in their original order. */
  function SortByPriority(s: seq<AlarmView>): (r: seq<AlarmView>)
    ensures SortedBy(r, RankOf)
    ensures multiset(r) == multiset(s)
    ensures forall k :: WithKey(r, RankOf, k) == WithKey(s, RankOf, k)
  {
    SortBySorted(s, RankOf);
    forall k
      ensures WithKey(SortBy(s, RankOf), RankOf, k) == WithKey(s, RankOf, k)
    {
      SortByStable(s, RankOf, k);
    }
    SortBy(s, RankOf)
  }

  // ---------------------------------------------------------------------------
  // HTML escaping
  // ---------------------------------------------------------------------------

  function EscapeChar(c: char): string {
    if c == '&' then "&amp;"
    else if c == '<' then "&lt;"
    else if c == '>' then "&gt;"
    else if c == '"' then "&quot;"
    else if c == '\'' then "&#39;"
    else [c]
  }

  /** escapeHtml: null becomes "", otherwise the five replace passes, which
      amount to one character-wise pass; none of < > " ' survives. */
  function EscapeHtml(text: Option<string>): (r: string)
    ensures text.None? ==> r == ""
    ensures text.Some? ==> r == Expand(text.value, EscapeChar)
  {
    if text.None? then ""
    else
      var s := text.value;
      EscapeChain(s);
      Replace(Replace(Replace(Replace(Replace(s, '&', "&amp;"), '<', "&lt;"), '>', "&gt;"), '"', "&quot;"), '\'', "&#39;")
  }

  /** The escaped text holds none of the characters that end markup. */
  lemma EscapeHtmlSafe(text: Option<string>)
    ensures var r := EscapeHtml(text);
      '<' !in r && '>' !in r && '"' !in r && '\'' !in r
  {
    if text.Some? {
      EscapedAvoids(text.value);
    }
  }

  lemma EscapedAvoids(s: string)
    ensures var r := Expand(s, EscapeChar);
      '<' !in r && '>' !in r && '"' !in r && '\'' !in r
  {
    forall c
      ensures '<' !in EscapeChar(c) && '>' !in EscapeChar(c) && '"' !in EscapeChar(c) && '\'' !in EscapeChar(c)
    {
    }
    ExpandAvoids(s, EscapeChar, '<');
    ExpandAvoids(s, EscapeChar, '>');
    ExpandAvoids(s, EscapeChar, '"');
    ExpandAvoids(s, EscapeChar, '\'');
  }

  /** The image of a character after the first one, two, three and four passes. */
  function AfterAmp(c: char): string { if c == '&' then "&amp;" else [c] }
  function AfterLt(c: char): string { if c == '<' then "&lt;" else AfterAmp(c) }
  function AfterGt(c: char): string { if c == '>' then "&gt;" else AfterLt(c) }
  function AfterQuot(c: char): string { if c == '"' then "&quot;" else AfterGt(c) }

  lemma AmpPass(s: string)
    ensures Replace(s, '&', "&amp;") == Expand(s, AfterAmp)
  {
    ExpandIdentity(s, c => [c]);
    ReplaceStep(s, c => [c], AfterAmp, '&', "&amp;");
  }

  lemma LtPass(s: string)
    ensures Replace(Expand(s, AfterAmp), '<', "&lt;") == Expand(s, AfterLt)
  {
    ReplaceStep(s, AfterAmp, AfterLt, '<', "&lt;");
  }

  lemma GtPass(s: string)
    ensures Replace(Expand(s, AfterLt), '>', "&gt;") == Expand(s, AfterGt)
  {
    ReplaceStep(s, AfterLt, AfterGt, '>', "&gt;");
  }

  lemma QuotPass(s: string)
    ensures Replace(Expand(s, AfterGt), '"', "&quot;") == Expand(s, AfterQuot)
  {
    ReplaceStep(s, AfterGt, AfterQuot, '"', "&quot;");
  }

  lemma AposPass(s: string)
    ensures Replace(Expand(s, AfterQuot), '\'', "&#39;") == Expand(s, EscapeChar)
  {
    ReplaceStep(s, AfterQuot, EscapeChar, '\'', "&#39;");
  }

  /** The ampersand pass must come first; after it each later pass only meets
      characters the earlier passes left alone. */
  lemma EscapeChain(s: string)
    ensures Replace(Replace(Replace(Replace(Replace(s, '&', "&amp;"), '<', "&lt;"), '>', "&gt;"), '"', "&quot;"), '\'', "&#39;")
         == Expand(s, EscapeChar)
  {
    AmpPass(s);
    LtPass(s);
    GtPass(s);
    QuotPass(s);
    AposPass(s);
  }

  /** Reads the five entities back. */
  function Unescape(s: string): string
    decreases |s|
  {
    if s == [] then []
    else if StartsWith(s, "&amp;") then "&" + Unescape(s[5..])
    else if StartsWith(s, "&lt;") then "<" + Unescape(s[4..])
    else if StartsWith(s, "&gt;") then ">" + Unescape(s[4..])
    else if StartsWith(s, "&quot;") then "\"" + Unescape(s[6..])
    else if StartsWith(s, "&#39;") then "'" + Unescape(s[5..])
    else [s[0]] + Unescape(s[1..])
  }

  lemma NotPrefix(s: string, p: string, i: int)
    requires 0 <= i < |p| && i < |s| && s[i] != p[i]
    ensures !StartsWith(s, p)
  {
    if |p| <= |s| {
      assert s[..|p|][i] == s[i];
    }
  }

  lemma PrefixOf(e: string, rest: string)
    ensures StartsWith(e + rest, e)
    ensures (e + rest)[|e|..] == rest
  {
    assert (e + rest)[..|e|] == e;
  }

  lemma UnescapeStep(c: char, rest: string)
    ensures Unescape(EscapeChar(c) + rest) == [c] + Unescape(rest)
  {
    var e := EscapeChar(c);
    var s := e + rest;
    PrefixOf(e, rest);
    if c == '&' {
    } else if c == '<' {
      NotPrefix(s, "&amp;", 1);
    } else if c == '>' {
      NotPrefix(s, "&amp;", 1);
      NotPrefix(s, "&lt;", 1);
    } else if c == '"' {
      NotPrefix(s, "&amp;", 1);
      NotPrefix(s, "&lt;", 1);
      NotPrefix(s, "&gt;", 1);
    } else if c == '\'' {
      NotPrefix(s, "&amp;", 1);
      NotPrefix(s, "&lt;", 1);
      NotPrefix(s, "&gt;", 1);
      NotPrefix(s, "&quot;", 1);
    } else {
      NotPrefix(s, "&amp;", 0);
      NotPrefix(s, "&lt;", 0);
      NotPrefix(s, "&gt;", 0);
      NotPrefix(s, "&quot;", 0);
      NotPrefix(s, "&#39;", 0);
    }
  }

  lemma {:induction false} UnescapeExpand(s: string)
    ensures Unescape(Expand(s, EscapeChar)) == s
  {
    if s != [] {
      assert Expand(s, EscapeChar) == EscapeChar(s[0]) + Expand(s[1..], EscapeChar);
      UnescapeStep(s[0], Expand(s[1..], EscapeChar));
      UnescapeExpand(s[1..]);
    }
  }

  /** Escaping loses nothing: the entities read back to the original text. */
  lemma UnescapeEscapeHtml(s: string)
    ensures Unescape(EscapeHtml(Some(s))) == s
  {
    UnescapeExpand(s);
  }

  // ---------------------------------------------------------------------------
  // Cards
  // ---------------------------------------------------------------------------

  /** An entry's bytes as Jackson sees them. */
  datatype Content = Parsed(json: Json) | Unparseable(message: Option<string>)

  datatype ZipItem = ZipItem(name: string, isDirectory: bool, content: Content)

  /** Entries that count as alarms: files whose name ends in ".json". */
  predicate IsAlarmEntry(e: ZipItem) {
    !e.isDirectory && EndsWith(e.name, ".json")
  }

  function AlarmEntries(items: seq<ZipItem>): (r: seq<ZipItem>)
    ensures |r| <= |items|
  {
    if items == [] then []
    else
      var last := items[|items| - 1];
      AlarmEntries(items[..|items| - 1]) + (if IsAlarmEntry(last) then [last] else [])
  }

  /** The entries kept are exactly the alarm entries of the archive. */
  lemma {:induction false} AlarmEntriesSpec(items: seq<ZipItem>)
    ensures forall e :: e in AlarmEntries(items) <==> e in items && IsAlarmEntry(e)
  {
    if items != [] {
      var init, last := items[..|items| - 1], items[|items| - 1];
      AlarmEntriesSpec(init);
      SplitLast(items);
      assert items == init + [last];
    }
  }

  /** Filtering keeps archive order: the alarms of a concatenation are the
      alarms of the first part followed by those of the second. */
  lemma {:induction false} AlarmEntriesAppend(a: seq<ZipItem>, b: seq<ZipItem>)
    ensures AlarmEntries(a + b) == AlarmEntries(a) + AlarmEntries(b)
  {
    if b == [] {
      assert a + b == a;
    } else {
      var init, last := b[..|b| - 1], b[|b| - 1];
      AlarmEntriesAppend(a, init);
      assert (a + b)[..|a + b| - 1] == a + init;
      assert (a + b)[|a + b| - 1] == last;
      ConcatAssoc(AlarmEntries(a), AlarmEntries(init), if IsAlarmEntry(last) then [last] else []);
    }
  }

  /** createErrorAlarm(fileName, errorMessage) */
  function ErrorCard(fileName: string, errorMessage: Option<string>): AlarmView {
    var p := Some("Critical");
    Blank.(componentName := Some("Error Processing: " + fileName),
           componentType := Some("Error"),
           test := Some("N/A"),
           measure := Some("N/A"),
           priority := p,
           priorityColor := Some(Badge(p)),
           layer := Some("N/A"),
           description := Some("Failed to process alarm file"),
           startTime := Some("N/A"),
           duration := Some("N/A"),
           repeatCount := 1,
           interpretation := None,
           aiAnalysis := Some("<div class='alert alert-danger'>" + EscapeHtml(errorMessage) + "</div>"))
  }

  /** An error card sorts first and shows red, with a repeat count of 1. */
  lemma ErrorCardFacts(fileName: string, errorMessage: Option<string>)
    ensures RankOf(ErrorCard(fileName, errorMessage)) == 1
    ensures ErrorCard(fileName, errorMessage).priorityColor == Some("danger")
    ensures ErrorCard(fileName, errorMessage).repeatCount == 1
    ensures ColorInStep(ErrorCard(fileName, errorMessage))
  {
    assert ToLower("Critical") == "critical";
  }

  method CreateErrorAlarm(fileName: string, errorMessage: Option<string>) returns (r: AlarmReportData)
    ensures fresh(r)
    ensures r.View() == ErrorCard(fileName, errorMessage)
  {
    r := new AlarmReportData();
    r.SetComponentName(Some("Error Processing: " + fileName));
    r.SetComponentType(Some("Error"));
    r.SetTest(Some("N/A"));
    r.SetMeasure(Some("N/A"));
    r.SetPriority(Some("Critical"));
    r.SetLayer(Some("N/A"));
    r.SetDescription(Some("Failed to process alarm file"));
    r.SetStartTime(Some("N/A"));
    r.SetDuration(Some("N/A"));
    r.SetRepeatCount(1);
    r.SetInterpretation(None);
    r.SetAiAnalysis(Some("<div class='alert alert-danger'>" + EscapeHtml(errorMessage) + "</div>"));
  }

  /** The members of representativeAlert read with get(...).asText(); a missing
      one dereferences null. */
  const AlertFields: seq<string> :=
    ["test", "measure", "componentName", "componentType", "priority", "layer",
     "description", "startTime", "duration"]

  predicate AlertComplete(alert: Json) {
    forall f :: f in AlertFields ==> Has(alert, f)
  }

  /** get(name).asText(), with "" standing in when the member is missing. */
  function Field(alert: Json, name: string): string {
    var n := Get(alert, name);
    if n.Some? then AsText(n.value) else ""
  }

  /** The repeat count shown: the stored one, or 1 when there is none. */
  function RepeatCountOf(alert: Json): int {
    var n := Get(alert, "repeatCount");
    if n.Some? then AsInt(n.value) else 1
  }

  /** The card built from a bundle whose representativeAlert has every field. */
  function AlertCard(entryName: string, data: Json, alert: Json, env: Env): AlarmView {
    var p := Some(Field(alert, "priority"));
    var v0 := Blank.(componentName := Some(Field(alert, "componentName")),
                     componentType := Some(Field(alert, "componentType")),
                     test := Some(Field(alert, "test")),
                     measure := Some(Field(alert, "measure")),
                     priority := p,
                     priorityColor := Some(Badge(p)),
                     layer := Some(Field(alert, "layer")),
                     description := Some(Field(alert, "description")),
                     startTime := Some(Field(alert, "startTime")),
                     duration := Some(Field(alert, "duration")));
    var v1 := if Has(alert, "info") then v0.(info := Some(Field(alert, "info"))) else v0;
    var v2 := v1.(repeatCount := RepeatCountOf(alert));
    var v3 := Interpreted(v2, Field(alert, "test"), Field(alert, "measure"), env);
    var g := Get(data, "measureGraphBase64");
    var v4 := if g.Some? && g.value != JNull then v3.(measureGraphBase64 := Some(AsText(g.value))) else v3;
    v4.(aiAnalysis := Some(env.analysis(entryName)))
  }

  /** What one alarm entry contributes to the report: nothing when the bundle
      has no representativeAlert, an error card when reading fails, the alarm's
      card otherwise. */
  function EntryCard(e: ZipItem, env: Env): Option<AlarmView> {
    match e.content
    case Unparseable(msg) => Some(ErrorCard(e.name, msg))
    case Parsed(data) =>
      var alert := Get(data, "representativeAlert");
      if alert.None? then None
      else if !AlertComplete(alert.value) then Some(ErrorCard(e.name, env.jvmMessage))
      else Some(AlertCard(e.name, data, alert.value, env))
  }

  /** Every card keeps its colour in step with its priority; a complete alert
      gives a card with the alert's priority, its repeat count (1 when absent)
      and the entry's AI analysis. */
  lemma EntryCardFacts(e: ZipItem, env: Env)
    ensures EntryCard(e, env).None? <==>
      e.content.Parsed? && Get(e.content.json, "representativeAlert").None?
    ensures EntryCard(e, env).Some? ==> ColorInStep(EntryCard(e, env).value)
    ensures e.content.Unparseable? ==> EntryCard(e, env) == Some(ErrorCard(e.name, e.content.message))
    ensures e.content.Parsed? && Get(e.content.json, "representativeAlert").Some? &&
            AlertComplete(Get(e.content.json, "representativeAlert").value) ==>
      var alert := Get(e.content.json, "representativeAlert").value;
      var v := EntryCard(e, env).value;
      v.priority == Some(Field(alert, "priority")) &&
      v.repeatCount == RepeatCountOf(alert) &&
      v.aiAnalysis == Some(env.analysis(e.name))
  {
    ErrorCardFacts(e.name, env.jvmMessage);
    if e.content.Unparseable? {
      ErrorCardFacts(e.name, e.content.message);
    } else {
      var alert := Get(e.content.json, "representativeAlert");
      if alert.Some? && AlertComplete(alert.value) {
        var a := alert.value;
        var p := Some(Field(a, "priority"));
        var v0 := Blank.(componentName := Some(Field(a, "componentName")),
                         componentType := Some(Field(a, "componentType")),
                         test := Some(Field(a, "test")),
                         measure := Some(Field(a, "measure")),
                         priority := p,
                         priorityColor := Some(Badge(p)),
                         layer := Some(Field(a, "layer")),
                         description := Some(Field(a, "description")),
                         startTime := Some(Field(a, "startTime")),
                         duration := Some(Field(a, "duration")));
        var v1 := if Has(a, "info") then v0.(info := Some(Field(a, "info"))) else v0;
        var v2 := v1.(repeatCount := RepeatCountOf(a));
        InterpretationOutcomes(v2, Field(a, "test"), Field(a, "measure"), env);
      }
    }
  }

  /** The cards of the alarm entries, in entry order. */
  function Cards(items: seq<ZipItem>, env: Env): (r: seq<AlarmView>)
    ensures |r| <= |AlarmEntries(items)|
  {
    if items == [] then []
    else
      var last := items[|items| - 1];
      var c := EntryCard(last, env);
      Cards(items[..|items| - 1], env) + (if IsAlarmEntry(last) && c.Some? then [c.value] else [])
  }

  /** The card for one entry, built through the bean's setters. */
  method BuildCard(e: ZipItem, env: Env) returns (card: AlarmReportData?)
    ensures card == null <==> EntryCard(e, env).None?
    ensures card != null ==> fresh(card) && card.View() == EntryCard(e, env).value
  {
    if e.content.Unparseable? {
      card := CreateErrorAlarm(e.name, e.content.message);
      return;
    }
    var data := e.content.json;
    var alert := Get(data, "representativeAlert");
    if alert.None? {
      return null;
    }
    var a := alert.value;
    if !AlertComplete(a) {
      card := CreateErrorAlarm(e.name, env.jvmMessage);
      return;
    }
    var test := Field(a, "test");
    var measure := Field(a, "measure");
    card := new AlarmReportData();
    card.SetComponentName(Some(Field(a, "componentName")));
    card.SetComponentType(Some(Field(a, "componentType")));
    card.SetTest(Some(test));
    card.SetMeasure(Some(measure));
    card.SetPriority(Some(Field(a, "priority")));
    card.SetLayer(Some(Field(a, "layer")));
    card.SetDescription(Some(Field(a, "description")));
    card.SetStartTime(Some(Field(a, "startTime")));
    card.SetDuration(Some(Field(a, "duration")));
    if Has(a, "info") {
      card.SetInfo(Some(Field(a, "info")));
    }
    card.SetRepeatCount(RepeatCountOf(a));
    PopulateInterpretation(card, test, measure, env);
    var g := Get(data, "measureGraphBase64");
    if g.Some? && g.value != JNull {
      card.SetMeasureGraphBase64(Some(AsText(g.value)));
    }
    card.SetAiAnalysis(Some(env.analysis(e.name)));
  }

  /** generateHtmlReport's entry loop and sort: the alarm count and the cards
      handed to the template, critical first. */
  method GenerateHtmlReport(items: seq<ZipItem>, env: Env) returns (alarms: seq<AlarmView>, alarmCount: nat)
    ensures alarmCount == |AlarmEntries(items)|
    ensures alarms == SortByPriority(Cards(items, env))
  {
    var cards: seq<AlarmView> := [];
    alarmCount := 0;
    var i := 0;
    while i < |items|
      invariant 0 <= i <= |items|
      invariant alarmCount == |AlarmEntries(items[..i])|
      invariant cards == Cards(items[..i], env)
    {
      var e := items[i];
      CardsStep(items, i, env);
      if IsAlarmEntry(e) {
        alarmCount := alarmCount + 1;
        var card := BuildCard(e, env);
        if card != null {
          cards := cards + [card.View()];
        }
      }
      i := i + 1;
    }
    assert items[..|items|] == items;
    alarms := SortByPriority(cards);
  }

  // ---------------------------------------------------------------------------
  // Prompt helpers
  // ---------------------------------------------------------------------------

  predicate LogNameChar(c: char) {
    IsAsciiLetterOrDigit(c) || c == '.' || c == '_' || c == '-'
  }

  /** The log base name: every ".json" removed, then every character outside
      [a-zA-Z0-9._-] turned into '_'. */
  function LogBaseName(entryName: string): (r: string)
    ensures |r| == |RemoveAll(entryName, ".json")|
    ensures forall i :: 0 <= i < |r| ==> LogNameChar(r[i])
    ensures forall i :: 0 <= i < |r| ==>
      r[i] == if LogNameChar(RemoveAll(entryName, ".json")[i]) then RemoveAll(entryName, ".json")[i] else '_'
  {
    Sanitize(RemoveAll(entryName, ".json"), LogNameChar)
  }

  function Min(a: int, b: int): int {
    if a <= b then a else b
  }

  /** The listed sample points: the first min(5, n), one line each. */
  function SampleLines(points: seq<Json>, render: Json -> string): (r: seq<string>)
    ensures |r| == Min(5, |points|)
    ensures forall i :: 0 <= i < |r| ==> r[i] == "  - " + render(points[i]) + "\n"
  {
    var n := Min(5, |points|);
    seq(n, i requires 0 <= i < n => "  - " + render(points[i]) + "\n")
  }

  function SampleHeader(n: int): string {
    "Data Points: " + IntToString(n) + "\n" + "Sample of recent data points:\n"
  }

  /** The closing line, present only when points were left out. */
  function MoreLine(n: int): string {
    if n > 5 then "  ... and " + IntToString(n - 5) + " more data points\n" else ""
  }

  /** The historical-data block of the prompt for a node that is present. */
  function HistoricalSection(h: Json, render: Json -> string): string {
    if h.JArray? && |h.items| > 0 then
      SampleHeader(|h.items|) + Join(SampleLines(h.items, render), "") + MoreLine(|h.items|)
    else if h.JObject? then render(h) + "\n"
    else "Historical data available but in unexpected format.\n"
  }

  /** An array of more than five points: the header gives the full count and the
      block ends by counting the points left out. */
  lemma HistoricalSectionShape(h: Json, render: Json -> string)
    requires h.JArray? && |h.items| > 5
    ensures StartsWith(HistoricalSection(h, render), "Data Points: " + IntToString(|h.items|) + "\n")
    ensures EndsWith(HistoricalSection(h, render), "  ... and " + IntToString(|h.items| - 5) + " more data points\n")
  {
    var n := |h.items|;
    var first := "Data Points: " + IntToString(n) + "\n";
    var head := SampleHeader(n);
    var mid := Join(SampleLines(h.items, render), "");
    var more := MoreLine(n);
    assert head == first + "Sample of recent data points:\n";
    ConcatAssoc(head, mid, more);
    assert (head + mid + more)[|head + mid|..] == more;
    assert (head + mid + more)[..|first|] == first;
  }

  /** The StringBuilder loop of the prompt builder for the historical data. */
  method AppendHistoricalSection(prompt: string, h: Json, render: Json -> string) returns (out: string)
    ensures out == prompt + HistoricalSection(h, render)
  {
    if h.JArray? && |h.items| > 0 {
      var n := |h.items|;
      ghost var lines := SampleLines(h.items, render);
      out := prompt + SampleHeader(n);
      var sampleSize := Min(5, n);
      var i := 0;
      while i < sampleSize
        invariant 0 <= i <= sampleSize
        invariant out == prompt + SampleHeader(n) + Join(lines[..i], "")
      {
        var line := "  - " + render(h.items[i]) + "\n";
        JoinSnoc(lines[..i], line);
        assert lines[..i + 1] == lines[..i] + [line];
        ConcatAssoc(prompt + SampleHeader(n), Join(lines[..i], ""), line);
        out := out + line;
        i := i + 1;
      }
      assert lines[..sampleSize] == lines;
      if n > 5 {
        out := out + "  ... and " + IntToString(n - 5) + " more data points\n";
      } else {
        assert MoreLine(n) == "";
      }
      ConcatAssoc(prompt, SampleHeader(n) + Join(lines, ""), MoreLine(n));
      ConcatAssoc(prompt, SampleHeader(n), Join(lines, ""));
    } else if h.JObject? {
      out := prompt + render(h) + "\n";
    } else {
      out := prompt + "Historical data available but in unexpected format.\n";
    }
  }

  /** Joining with the empty separator is concatenation, one part at a time. */
  lemma {:induction false} JoinSnoc(parts: seq<string>, x: string)
    ensures Join(parts + [x], "") == Join(parts, "") + x
  {
    if parts == [] {
      assert [] + [x] == [x];
    } else if |parts| == 1 {
      assert (parts + [x])[1..] == [x];
    } else {
      assert (parts + [x])[1..] == parts[1..] + [x];
      JoinSnoc(parts[1..], x);
    }
  }
}
